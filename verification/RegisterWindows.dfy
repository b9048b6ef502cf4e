/** Register windows around emitted code that runs in a frame of its own: how operands get in, and which results get
    out. */
module RegisterWindows {
  type Word = nat

  datatype RegisterClass = Global | Out | Local | In

  datatype Reg = Reg(class_: RegisterClass, n: nat)

  /** The registers one window shows. */
  datatype File = File(globals: nat -> Word, outs: nat -> Word, locals: nat -> Word, ins: nat -> Word)

  function Read(f: File, r: Reg): Word {
    match r.class_
    case Global => f.globals(r.n)
    case Out => f.outs(r.n)
    case Local => f.locals(r.n)
    case In => f.ins(r.n)
  }

  function Update(bank: nat -> Word, n: nat, w: Word): nat -> Word {
    (k: nat) => if k == n then w else bank(k)
  }

  function Write(f: File, r: Reg, w: Word): File {
    match r.class_
    case Global => f.(globals := Update(f.globals, r.n, w))
    case Out => f.(outs := Update(f.outs, r.n, w))
    case Local => f.(locals := Update(f.locals, r.n, w))
    case In => f.(ins := Update(f.ins, r.n, w))
  }

  lemma WriteReads(f: File, r: Reg, w: Word, q: Reg)
    ensures Read(Write(f, r, w), q) == if q == r then w else Read(f, q)
  {
  }

  /** `save`: the outs become the ins; locals and outs are new. */
  function SaveWindow(f: File, locals: nat -> Word, outs: nat -> Word): File {
    File(f.globals, outs, locals, f.outs)
  }

  /** `restore`: the ins are the outs again; locals and ins are those from before the save. */
  function RestoreWindow(callee: File, caller: File): File {
    File(callee.globals, callee.ins, caller.locals, caller.ins)
  }

  // ---- operands of cas_under_lock ----

  predicate Visible(r: Reg) {
    r.class_.Out? || r.class_.Global?
  }

  /** An out or a global has a name after the save; anything else goes through memory to a local. */
  function AfterSave(r: Reg, spare: nat): Reg {
    match r.class_
    case Out => Reg(In, r.n)
    case Global => r
    case _ => Reg(Local, spare)
  }

  function Bring(callee: File, caller: File, r: Reg, spare: nat): File {
    if Visible(r) then callee else Write(callee, Reg(Local, spare), Read(caller, r))
  }

  /** The three operands in the new window: address, compare value, and the one that receives the result. */
  function Enter(caller: File, a: Reg, b: Reg, result: Reg, locals: nat -> Word, outs: nat -> Word): File {
    Bring(Bring(Bring(SaveWindow(caller, locals, outs), caller, a, 0), caller, b, 1), caller, result, 2)
  }

  /** Whatever registers they are in, the code finds the caller's operands. */
  lemma OperandsArrive(caller: File, a: Reg, b: Reg, result: Reg, locals: nat -> Word, outs: nat -> Word)
    ensures var f := Enter(caller, a, b, result, locals, outs);
            && Read(f, AfterSave(a, 0)) == Read(caller, a) && Read(f, AfterSave(b, 1)) == Read(caller, b)
            && Read(f, AfterSave(result, 2)) == Read(caller, result)
  {
  }

  /** Work in the new window that touches nothing but its locals and outs. */
  ghost predicate OnlyScratch(f: File, f': File) {
    f'.globals == f.globals && f'.ins == f.ins
  }

  /** The result is moved to where its register is now called, and the window restored. */
  function Leave(caller: File, f: File, result: Reg, value: Word): File {
    RestoreWindow(Write(f, AfterSave(result, 2), value), caller)
  }

  /** A result in an out or a global is seen by the caller, and no other register has changed.  In a local or an in it
      is lost, and nothing has changed at all. */
  lemma ResultLeaves(caller: File, a: Reg, b: Reg, result: Reg, locals: nat -> Word, outs: nat -> Word, f: File,
                     value: Word, r: Reg)
    requires OnlyScratch(Enter(caller, a, b, result, locals, outs), f)
    ensures Read(Leave(caller, f, result, value), r)
            ==
            if r == result && (result.class_.Out? || result.class_.Global?) then value else Read(caller, r)
  {
  }
}
