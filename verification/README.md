# Verified model of HotSpot's SPARC back end

This project models what the SPARC back end of the HotSpot virtual machine emits for locking, allocation, garbage
collector barriers, subtype checks, long arithmetic, constants and branches, together with C1's delay-slot pass and
the argument layout tool, and proves what that code is for.

`dafny verify dfyconfig.toml` checks everything.

## How the model is built

Code that several threads run at once is a state machine. One step is one access to shared memory together with the
register instructions up to the next one. A run is any sequence of events of any number of threads; an event that is
not enabled changes nothing. Theorems about such code hold of every reachable state or every run.

Straight-line emitted code is a function on registers that keeps the order of the instructions, the registers the
caller may name (so that two may be one), annulled delay slots and the width of each condition code. Code that
updates a list or an array in place is a class or a method with its loop, proved against a function.

Machine words are natural numbers. Their fields are written with division and remainder in the protocols;
`MarkWordBits` shows that these are what the and, or and xor instructions compute.

| files | component |
|---|---|
| `MarkWord`, `MarkWordBits` | the object header word, its masks, the recursion test, the triage of biased marks |
| `Locking`, `LockingSafety`, `LockingProgress` | lock and unlock of C1 and C2 with biased locking and monitors |
| `EmulatedCas`, `RegisterWindows` | compare-and-swap under a spin lock, in a register window of its own |
| `Allocation`, `AllocationSafety` | eden and TLAB allocation, TLAB refill, array sizes |
| `PtrQueue`, `SatbBarrier` | G1's log queues and the barrier in front of stores |
| `CardBarrier`, `CardBarrierSafety`, `CardBarrierProgress` | the barrier behind stores, and card refinement |
| `KlassHierarchy`, `ArrayKlasses` | supertype display and secondary supers of all klasses; creation of array klasses |
| `SubtypeFastPath`, `SubtypeCheck` | the emitted subtype check |
| `DelaySlots`, `DelaySlotSemantics`, `DelaySlotCode` | C1's peephole pass, and the instructions of what it moves |
| `LongShift`, `LongCompare`, `SetConstant`, `BranchPatch` | emitted arithmetic, constants and branch patching |
| `ArgLayout`, `MoreMonitors`, `ObjectInit` | argument layout, interpreter monitors, clearing of new objects |
| `Bits`, `Wrappers` | bitwise operations on naturals; optional values |

## Where the code does not do what its comments or checks say

Each of these is proved with the exact condition under which the code does it.

- The rebias path of `biased_locking_enter` masks the owner out of the mark in a delay slot that also runs on that
  path, so its CAS succeeds only on a mark without owner (`ExpiredBiasWithOwnerBlocks`,
  `ExpiredAnonymousBiasIsTaken`).
- C1's `lock_object` compares with the stack pointer without the stack bias. With a bias of 2047 its recursion test
  rejects all of the thread's own boxes (`ClientRecursionNeedsNoBias`). Runs with C1 code are therefore those of the
  32-bit VM.
- The retry of `eden_allocate` after a lost CAS reuses a register that no longer holds the end of eden: it always
  takes the slow path (`LostCasGivesUp`).
- `cas_under_lock` runs in a register window of its own: a result register that is a local or an in does not reach
  the caller (`ReturnsOldValue`).
- The post barrier has no fence between the reference store and the card load. Beside a refinement thread, on a
  machine that buffers stores, a reference can be lost (`CoveredIffSafe`).
- C1's region filter tests 32 bits of the shifted difference in the 64-bit VM. In a heap longer than 2^52 bytes it
  drops a store between two regions (`ClientFilterReach`, `CoveredIffSafe`).
- The subtype fast path asserts neither that a register with the offset differs from its temporary nor anything of
  its second temporary. With such registers it decides wrongly on some klasses (`FastPathRightIff`).
- The instanceof variant of the subtype fast path sets its result in the delay slot of an unconditional branch with
  the annul bit, where it never runs (`ResultRightIff`). The callers in the repository do not use that variant.
- The alias checks of the long shifts are too weak (`RightIff`).
- C1's test whether the offset of a stack slot needs a register tests the word size instead, by the precedence of its
  operators. A move to or from a slot far from the stack pointer cannot be encoded (`SlotEncodableIff`).
- `size_of_sethi` returns instructions in its worst case and bytes otherwise, so that the worst case is too small for
  all but one-instruction values (`SizeSufficesIff`).

## Model

| member | source | states |
|---|---|---|
| `MarkWord.ServerRecursionIffNear` | src/cpu/sparc/vm/assembler_sparc.cpp:3433-3464 | in words of 32 or 64 bits the recursion test passes exactly for a word less than a page above the stack pointer with both lock bits clear |
| `MarkWord.ClientRecursionIffNear` | src/cpu/sparc/vm/c1_MacroAssembler_sparc.cpp:104-126 | the same for C1's test where the stack is not biased |
| `MarkWord.ClientRecursionNeedsNoBias` | src/cpu/sparc/vm/c1_MacroAssembler_sparc.cpp:104-126 | with the bias of the 64-bit VM C1's test rejects every aligned word and accepts some unlocked header |
| `MarkWord.TriageBiasedPrototype` | src/cpu/sparc/vm/assembler_sparc.cpp:3091-3191 | under a biased prototype: exactly the holder of a current bias gets in without a CAS; every CAS expects an ownerless word and installs a current bias; rebias exactly for another epoch |
| `MarkWord.TriagePlainPrototype` | src/cpu/sparc/vm/assembler_sparc.cpp:3091-3216 | under a plain prototype a biased mark goes to revocation and any other to the CAS lock |
| `MarkWordBits.BitTriageIsTriage` | src/cpu/sparc/vm/assembler_sparc.cpp:3091-3191 | the and, or, xor and bit tests of the emitted code decide and compute just what the triage on fields does |
| `MarkWordBits.RecursionMaskIsAnd` | src/cpu/sparc/vm/assembler_sparc.cpp:3433-3464 | the and with the sign-extended constant is the mask of the recursion test |
| `MarkWordBits.LockBits` | src/cpu/sparc/vm/assembler_sparc.cpp:3404-3420 | the monitor bit test and the or with the unlocked bit |
| `LockingSafety.StepInv` | src/cpu/sparc/vm/assembler_sparc.cpp:3071-3633 | every step of every thread, of either compiler, keeps the phase invariant (neutral or stack-locked, biased, stale bias, monitor) |
| `LockingSafety.MutualExclusion` | src/cpu/sparc/vm/assembler_sparc.cpp:3269-3633 | in every reachable state at most one thread holds the object |
| `LockingSafety.HeaderConservation` | src/cpu/sparc/vm/assembler_sparc.cpp:3390-3489 | without bias or monitor the object's header is in exactly one of the mark, one register or one box |
| `LockingSafety.MonitorConservation` | src/cpu/sparc/vm/assembler_sparc.cpp:3466-3600 | a monitor's owner is exactly the thread that holds it or has just won it, in every reachable state; it is free exactly when no thread does |
| `LockingSafety.BalancedRunRestoresMark` | src/cpu/sparc/vm/assembler_sparc.cpp:3495-3633 | after any run in which every lock was unlocked the mark is the starting one |
| `LockingSafety.UnlockNeverFails` | src/cpu/sparc/vm/c1_MacroAssembler_sparc.cpp:130-163 | without a monitor no unlock has to call the runtime, in any reachable state |
| `LockingSafety.RecursionMeansOwner` | src/cpu/sparc/vm/assembler_sparc.cpp:3433-3464 | a thread that passes the recursion test holds the lock already |
| `LockingSafety.OwnedBiasStays` | src/cpu/sparc/vm/assembler_sparc.cpp:3135-3191 | no run of fast paths replaces a bias that has an owner |
| `LockingSafety.OneBiasHolder` | src/cpu/sparc/vm/assembler_sparc.cpp:3071-3191 | at most one thread ever gets in through the bias, and the mark names it |
| `LockingSafety.ExpiredBiasWithOwnerBlocks` | src/cpu/sparc/vm/assembler_sparc.cpp:3135-3191 | an expired bias with an owner: no run of fast paths locks the object |
| `LockingSafety.ExpiredAnonymousBiasIsTaken` | src/cpu/sparc/vm/assembler_sparc.cpp:3135-3191 | an expired bias without owner: the first thread alone gets it, with the code of either compiler |
| `LockingSafety.NeverBiasedAgain` | src/cpu/sparc/vm/assembler_sparc.cpp:3193-3216 | revocation is final over every run |
| `LockingProgress.SoloLock` | src/cpu/sparc/vm/c1_MacroAssembler_sparc.cpp:82-127 | alone, on an unbiased object, the lock code of either compiler puts the header into the box and the box into the mark, with biased locking on or off |
| `LockingProgress.NearIsRecursion` | src/cpu/sparc/vm/assembler_sparc.cpp:3433-3464 | the recursion test accepts every aligned box less than a page above the stack pointer |
| `LockingProgress.SoloRecursiveLock` | src/cpu/sparc/vm/assembler_sparc.cpp:3407-3464 | locking again puts zero into the new box and leaves the mark |
| `LockingProgress.SoloContendedLock` | src/cpu/sparc/vm/assembler_sparc.cpp:3412-3464 | a lock in another thread's box: no lock, and nothing changed outside the own box |
| `LockingProgress.SoloMonitorLock` | src/cpu/sparc/vm/assembler_sparc.cpp:3466-3490 | a free monitor is taken by writing the thread as owner; any other is left alone |
| `LockingProgress.SoloClientMonitorLock` | src/cpu/sparc/vm/c1_MacroAssembler_sparc.cpp:82-127 | C1's code leaves every monitor to the runtime, unchanged |
| `LockingProgress.SoloMonitorUnlock` | src/cpu/sparc/vm/assembler_sparc.cpp:3549-3597 | the owner of a monitor without waiters pops its box and clears the owner; with waiters or another owner nothing changes |
| `LockingProgress.SoloClientMonitorUnlock` | src/cpu/sparc/vm/c1_MacroAssembler_sparc.cpp:130-163 | C1's unlock leaves a monitor to the runtime, unchanged |
| `LockingProgress.MonitorLockThenUnlock` | src/cpu/sparc/vm/assembler_sparc.cpp:3466-3597 | a free monitor is free again after lock and unlock |
| `LockingProgress.SoloBiasedLock` | src/cpu/sparc/vm/assembler_sparc.cpp:3091-3191 | under a biased prototype: the holder of a current bias gets in, an ownerless object is taken with the current epoch, any other bias stays |
| `LockingProgress.SoloRevocation` | src/cpu/sparc/vm/assembler_sparc.cpp:3193-3216 | under a plain prototype one attempt puts the prototype in place of the bias, without getting the lock |
| `LockingProgress.SoloBiasedUnlock` | src/cpu/sparc/vm/assembler_sparc.cpp:3219-3232 | unlocking a biased object pops the box and changes nothing else |
| `LockingProgress.SoloUnlock` | src/cpu/sparc/vm/assembler_sparc.cpp:3535-3633 | the innermost box is popped; only the outermost one restores the header |
| `LockingProgress.LockThenUnlock` | src/cpu/sparc/vm/c1_MacroAssembler_sparc.cpp:82-163 | a lock of one compiler and an unlock of either cancel out |
| `EmulatedCas.MutualExclusion` | src/cpu/sparc/vm/assembler_sparc.cpp:2485-2603 | at most one thread is inside the spin lock, over every run |
| `EmulatedCas.Linearizable` | src/cpu/sparc/vm/assembler_sparc.cpp:2485-2603 | all calls have one order, consistent with their times, in which each is an atomic compare-and-swap; the order has each returned call once, and nothing but calls that returned or are about to |
| `EmulatedCas.ReturnsOldValue` | src/cpu/sparc/vm/assembler_sparc.cpp:2511-2600 | the caller gets the old value if and only if its register is a global or an out, or the new value was the old one |
| `EmulatedCas.SoloCallReturns` | src/cpu/sparc/vm/assembler_sparc.cpp:2511-2600 | a thread alone returns with the operation done and the lock free |
| `EmulatedCas.SpinsGoRound` | src/cpu/sparc/vm/assembler_sparc.cpp:2538-2567 | while the lock is taken a thread yields after every so many failed swaps and not before |
| `EmulatedCas.ResultRegisterIsLeft` | src/cpu/sparc/vm/assembler_sparc.cpp:2494-2600 | what the caller finds in its result register is what the code leaves there through save and restore |
| `RegisterWindows.OperandsArrive` | src/cpu/sparc/vm/assembler_sparc.cpp:2494-2536 | the code finds the caller's three operands, whatever registers they are in |
| `RegisterWindows.ResultLeaves` | src/cpu/sparc/vm/assembler_sparc.cpp:2594-2600 | a result in an out or a global reaches the caller, in a local or an in it is lost; no other register changes |
| `AllocationSafety.StepKeeps` | src/cpu/sparc/vm/assembler_sparc.cpp:3719-3959 | every step of eden allocation, TLAB allocation and refill keeps the tiling of eden |
| `AllocationSafety.AllocationsDisjoint` | src/cpu/sparc/vm/assembler_sparc.cpp:3719-3856 | objects handed out never overlap, are aligned and inside eden |
| `AllocationSafety.HeapPartition` | src/cpu/sparc/vm/assembler_sparc.cpp:3859-3959 | below the top every byte is in exactly one object, filler, TLAB rest or pending chunk |
| `AllocationSafety.FillerCovers` | src/cpu/sparc/vm/assembler_sparc.cpp:3910-3927 | the filler array written into a retired TLAB ends exactly with its reserve |
| `AllocationSafety.LostCasGivesUp` | src/cpu/sparc/vm/assembler_sparc.cpp:3775-3782 | a thread that loses the CAS takes the slow case, with nothing else changed |
| `AllocationSafety.SoloEdenAllocate` | src/cpu/sparc/vm/assembler_sparc.cpp:3743-3782 | alone, eden allocation hands out exactly the next bytes when the low 32 bits of the free space reach the size, and changes nothing otherwise |
| `AllocationSafety.TlabAllocateFits` | src/cpu/sparc/vm/assembler_sparc.cpp:3803-3856 | when the object fits it is exactly the next bytes of the TLAB, whose top moves by the size; otherwise nothing changes |
| `AllocationSafety.TlabAllocateIff` | src/cpu/sparc/vm/assembler_sparc.cpp:3803-3856 | for any TLAB: exactly when the size is at most the low 32 bits of the free space as a signed number |
| `AllocationSafety.RefillKeepsTlab` | src/cpu/sparc/vm/assembler_sparc.cpp:3872-3897 | a TLAB with more free words than the waste limit is kept, with a higher limit, and the object is allocated in eden |
| `AllocationSafety.RefillReplacesTlab` | src/cpu/sparc/vm/assembler_sparc.cpp:3899-3959 | any other is retired under a filler, a chunk at eden's top is the new one, and the object is the first in it if it fits; without room nothing changes |
| `AllocationSafety.ArraySizeIsValid` | src/cpu/sparc/vm/c1_MacroAssembler_sparc.cpp:317-344 | lengths are accepted exactly from 0 to the maximum, and the size is the aligned one that holds header and elements |
| `PtrQueue.PushAdds` | src/cpu/sparc/vm/assembler_sparc.cpp:4112-4124 | logging a value adds exactly that entry |
| `PtrQueue.RefillKeeps` | src/share/vm/gc_implementation/g1/ptrQueue.inline.hpp:25-41 | handing a full buffer off loses and adds no entry |
| `PtrQueue.Queue.HandleZeroIndex` | src/share/vm/gc_implementation/g1/ptrQueue.inline.hpp:25-41 | the queue object's new state: full buffer recorded, fresh buffer, full index |
| `PtrQueue.Queue.Enqueue` | src/cpu/sparc/vm/assembler_sparc.cpp:4112-4155 | the restart loop ends with exactly the value added to the entries |
| `SatbBarrier.SnapshotComplete` | src/cpu/sparc/vm/assembler_sparc.cpp:4191-4277 | over every run each field has its snapshot value, or that value is null or logged |
| `SatbBarrier.SnapshotReachable` | src/cpu/sparc/vm/assembler_sparc.cpp:4191-4277 | what was reachable at the snapshot is found over unmodified edges from its roots and the log |
| `SatbBarrier.MarkingIsComplete` | src/cpu/sparc/vm/c1_Runtime1_sparc.cpp:817-876 | any closed marking that contains roots and log contains every object reachable at the snapshot |
| `SatbBarrier.SoloStore` | src/share/vm/c1/c1_LIRGenerator.cpp:1279-1318 | a barriered store alone stores the value and logs exactly the non-null previous one |
| `SatbBarrier.SoloFullStore` | src/cpu/sparc/vm/assembler_sparc.cpp:4112-4155 | with a full queue the store still logs the previous value, and no entry is lost |
| `SatbBarrier.SoloInactiveStore` | src/cpu/sparc/vm/assembler_sparc.cpp:4195-4214 | outside marking the store happens and nothing is logged |
| `SatbBarrier.NewObjectIsNull` | src/cpu/sparc/vm/c1_MacroAssembler_sparc.cpp:195-202 | a new object has exactly its slots, all null |
| `CardBarrier.AssembledFilter` | src/cpu/sparc/vm/assembler_sparc.cpp:4421-4456 | the xor and shift filter is exactly the test for one region |
| `CardBarrier.ClientFilterReach` | src/share/vm/c1/c1_LIRGenerator.cpp:1351-1379 | for a heap anywhere: C1's filter drops no store between regions if and only if the heap is at most 2^52 bytes long |
| `CardBarrierProgress.CardIsBlock` | src/share/vm/memory/cardTableModRefBS.hpp:261-261 | a card is an aligned block of 512 bytes inside one region |
| `CardBarrierProgress.MarksIff` | src/cpu/sparc/vm/assembler_sparc.cpp:4421-4456 | which stores of which code reach the card table, in a heap within reach |
| `CardBarrierProgress.SoloStore` | src/cpu/sparc/vm/assembler_sparc.cpp:4421-4497 | a store alone stores the value and, if it marks a clean card, dirties and logs exactly that card |
| `CardBarrierProgress.SoloFullEnqueue` | src/cpu/sparc/vm/assembler_sparc.cpp:4316-4393 | with a full log the old buffer is handed off as it was and the card added |
| `CardBarrierProgress.SoloRefine` | src/share/vm/gc_implementation/g1/g1RemSet.cpp:857-945 | a refinement thread alone cleans a dirty card and remembers exactly the references between regions on it |
| `CardBarrierProgress.SoloSkip` | src/share/vm/gc_implementation/g1/g1RemSet.cpp:857-870 | a card no longer dirty is passed over |
| `CardBarrierSafety.StepKeeps` | src/cpu/sparc/vm/assembler_sparc.cpp:4316-4497 | every step of mutators, store buffers and refinement keeps every cross-region reference covered and every dirty card tracked |
| `CardBarrierSafety.NoReferenceLost` | src/cpu/sparc/vm/c1_Runtime1_sparc.cpp:878-969 | when all is quiet every cross-region reference is remembered or on a dirty card that is logged or was never to be |
| `CardBarrierSafety.DirtyCardsComplete` | src/cpu/sparc/vm/assembler_sparc.cpp:4316-4393 | where no card is cleaned every cross-region reference ends on a dirty card, in a log unless it was dirty from the start |
| `CardBarrierSafety.CoveredIffSafe` | src/share/vm/gc_implementation/g1/g1RemSet.cpp:857-945 | over all runs references stay covered if and only if the heap is within the reach of C1's filter, and stores are ordered before card loads or nobody cleans cards |
| `KlassHierarchy.ArrayDepth` | src/share/vm/oops/objArrayKlass.cpp:232-238 | an array klass is one level deeper than its element, and overflows the display when that is full |
| `KlassHierarchy.ArrayCells` | src/share/vm/oops/klass.cpp:210-246 | the display of an array klass is that of its element, shifted by one cell and with a dimension more |
| `KlassHierarchy.DisplayDecides` | src/share/vm/oops/klass.cpp:210-246 | for classes, interfaces and arrays: a primary super is a supertype exactly when it is in its cell of the display |
| `KlassHierarchy.SecondariesDecide` | src/share/vm/oops/klass.cpp:264-318 | any other type is a supertype exactly when it is the klass itself or a secondary super |
| `ArrayKlasses.ArrayKlass` | src/share/vm/oops/objArrayKlassKlass.cpp:53-158 | creation of an array klass ends, with the klass there and the hierarchy well formed; nothing but array klasses is added, and nothing at all if it was there |
| `ArrayKlasses.DefineKeeps` | src/share/vm/oops/klass.cpp:210-318 | a class or interface defined on top of the others keeps the hierarchy well formed |
| `ArrayKlasses.Allocate` | src/share/vm/oops/objArrayKlass.cpp:240-262 | the one klass added has its super and secondary supers right |
| `ArrayKlasses.SuperArrays` | src/share/vm/oops/objArrayKlassKlass.cpp:83-91 | afterwards the element's super and all its secondary supers have array klasses |
| `ArrayKlasses.SameSecondaries` | src/share/vm/oops/klass.cpp:259-318 | klasses defined later leave the secondary supers as they are |
| `ArrayKlasses.SameSubtypes` | src/share/vm/oops/objArrayKlass.cpp:264-270 | and the subtype relation |
| `SubtypeFastPath.FastPathDecides` | src/cpu/sparc/vm/assembler_sparc.cpp:2788-2916 | for all options and klasses, and registers that are distinct, the emitted code leaves at the label of its decision, with the right result register unless its last jump is annulled |
| `SubtypeFastPath.FastPathRightIff` | src/cpu/sparc/vm/assembler_sparc.cpp:2806-2916 | given the emitter's assertions, the decision is right on every machine if and only if the register of the offset is none of the others |
| `SubtypeFastPath.ResultRightIff` | src/cpu/sparc/vm/assembler_sparc.cpp:2820-2910 | given the emitter's assertions, the result register is right on every machine if and only if the registers are distinct and the options do not include that jump |
| `SubtypeCheck.StepKeeps` | src/cpu/sparc/vm/assembler_sparc.cpp:2788-3014 | every step keeps the caches inside the secondary supers and every thread's answer right |
| `SubtypeCheck.AnswersAreSubtyping` | src/cpu/sparc/vm/assembler_sparc.cpp:2757-3014 | however checks of classes, interfaces and arrays interleave on the shared caches, each answers by the language's subtype relation |
| `SubtypeCheck.CheckAdvances` | src/cpu/sparc/vm/assembler_sparc.cpp:2980-3014 | every step brings a check closer to its answer |
| `SubtypeCheck.SoloCheck` | src/cpu/sparc/vm/assembler_sparc.cpp:2757-3014 | a check started and left alone ends with the right answer, within a bound on its steps |
| `SubtypeCheck.ScanLoop` | src/cpu/sparc/vm/assembler_sparc.cpp:2975-3003 | the scan finds the super if and only if it is in the list |
| `SubtypeCheck.EmittedFastStep` | src/cpu/sparc/vm/assembler_sparc.cpp:2788-2916 | the emitted fast path takes the model's step |
| `DelaySlots.LirList.FillAt` | src/cpu/sparc/vm/c1_LIRAssembler_sparc.cpp:3071-3129 | the slot of one branch or call, filled in place |
| `DelaySlots.LirList.Peephole` | src/cpu/sparc/vm/c1_LIRAssembler_sparc.cpp:3063-3134 | the in-place pass produces the filled list |
| `DelaySlots.FillSlots` | src/cpu/sparc/vm/c1_LIRAssembler_sparc.cpp:3063-3134 | every branch and call is followed by a slot with its debug information and an operation that has none; nothing else is |
| `DelaySlots.FillLosesNothing` | src/cpu/sparc/vm/c1_LIRAssembler_sparc.cpp:3063-3134 | emptying the slots gives back the original list |
| `DelaySlotSemantics.FitsIsNeeded` | src/cpu/sparc/vm/c1_LIRAssembler_sparc.cpp:3105-3110 | a single-instruction move may pass a call on every machine if and only if it does not set the receiver of a vtable call |
| `DelaySlotSemantics.FillPreservesRuns` | src/cpu/sparc/vm/c1_LIRAssembler_sparc.cpp:3063-3134 | for every machine, start, state and number of jumps the filled list ends as the plain one |
| `DelaySlotCode.SingleIsOne` | src/cpu/sparc/vm/c1_LIRAssembler_sparc.cpp:51-120 | what the pass takes for a single instruction is emitted as one |
| `DelaySlotCode.SingleIffOne` | src/cpu/sparc/vm/c1_LIRAssembler_sparc.cpp:65-114 | of the moves of single words it misses none that is one instruction |
| `DelaySlotCode.BranchTakesIff` | src/cpu/sparc/vm/c1_LIRAssembler_sparc.cpp:3068-3091 | the operation before a branch to a block goes into its slot exactly when it is one instruction without debug information |
| `DelaySlotCode.SlotsHoldOne` | src/cpu/sparc/vm/c1_LIRAssembler_sparc.cpp:2842-2857 | every delay slot of a filled list holds exactly one instruction |
| `DelaySlotCode.SlotEncodableIff` | src/cpu/sparc/vm/c1_LIRAssembler_sparc.cpp:928-936 | a move to or from a stack slot can be encoded exactly when the slot is within thirteen bits of the stack pointer |
| `LongShift.LeftSmall` | src/cpu/sparc/vm/assembler_sparc.cpp:2172-2189 | counts below 32: the halves computed are the product with the power of two, modulo 2^64 |
| `LongShift.RightArithmeticSmall` | src/cpu/sparc/vm/assembler_sparc.cpp:2233-2250 | the halves are the signed quotient rounded down |
| `LongShift.RightLogicalSmall` | src/cpu/sparc/vm/assembler_sparc.cpp:2297-2314 | the halves are the unsigned quotient |
| `LongShift.RightIff` | src/cpu/sparc/vm/assembler_sparc.cpp:2136-2324 | given the emitters' checks, the code shifts every long by every count if and only if the stated further registers differ |
| `LongCompare.BranchIsRight` | src/cpu/sparc/vm/c1_LIRAssembler_sparc.cpp:1675-1697 | for all six conditions and all longs C1's branch is taken just when the condition holds |
| `LongCompare.MirrorHolds` | src/share/vm/c1/c1_Instruction.cpp:41-52 | mirroring a condition exchanges its operands |
| `LongCompare.UnmirroredWrongIff` | src/cpu/sparc/vm/c1_LIRGenerator_sparc.cpp:1058-1068 | the unmirrored condition would fail exactly where the first long is above the second by less than 2^32 |
| `LongCompare.LcmpIsSign` | src/cpu/sparc/vm/assembler_sparc.cpp:2086-2129 | both forms of `lcmp` give the sign of the difference |
| `LongCompare.LnegIsMinus` | src/cpu/sparc/vm/assembler_sparc.cpp:2131-2134 | `lneg` negates every long but the least, which it keeps, and undoes itself |
| `SetConstant.SethiExact` | src/cpu/sparc/vm/assembler_sparc.cpp:1248-1290 | for every 64-bit value the sequence leaves the value with its low ten bits clear |
| `SetConstant.SetExact` | src/cpu/sparc/vm/assembler_sparc.cpp:1345-1364 | `set` loads every value and changes no other register |
| `SetConstant.Set64Exact` | src/cpu/sparc/vm/assembler_sparc.cpp:1390-1428 | `set64` loads every value |
| `SetConstant.SizeExact` | src/cpu/sparc/vm/assembler_sparc.cpp:1314-1338 | the size returned for a value is the number of bytes emitted for it |
| `SetConstant.SizeSufficesIff` | src/cpu/sparc/vm/assembler_sparc.cpp:1314-1338 | the size returned holds the emitted code if and only if the worst case was not asked for or the value needs one instruction |
| `SetConstant.PaddedExact` | src/cpu/sparc/vm/assembler_sparc.cpp:1291-1312 | the patchable form loads the same |
| `SetConstant.FieldsFit` | src/cpu/sparc/vm/assembler_sparc.cpp:1248-1428 | every immediate and shift count fits its field |
| `BranchPatch.RoundTripIff` | src/cpu/sparc/vm/assembler_sparc.cpp:97-139 | the destination read back is the one patched in if and only if the distance is whole words within the format's reach |
| `BranchPatch.CallsReachAll` | src/cpu/sparc/vm/assembler_sparc.cpp:104 | for calls every whole number of words is in reach |
| `BranchPatch.RestStays` | src/cpu/sparc/vm/assembler_sparc.cpp:116-116 | no bit outside the displacement changes |
| `BranchPatch.FormatStays` | src/cpu/sparc/vm/assembler_sparc.cpp:97-117 | the patched word is an instruction of the same format |
| `BranchPatch.Repatched` | src/cpu/sparc/vm/assembler_sparc.cpp:97-117 | patching again gives what patching once to the last destination gives |
| `BranchPatch.PatchedWords` | src/cpu/sparc/vm/assembler_sparc.cpp:97-139 | of all instruction words, put together from their fields, exactly calls and the six branch formats are patched and read |
| `BranchPatch.PredictedBranch` | src/cpu/sparc/vm/assembler_sparc.cpp:108-132 | predicted branches: the low nineteen bits are replaced and read, the rest is kept |
| `BranchPatch.PlainBranch` | src/cpu/sparc/vm/assembler_sparc.cpp:110-135 | plain branches: the low twenty-two bits |
| `BranchPatch.RegisterBranch` | src/cpu/sparc/vm/assembler_sparc.cpp:107-130 | branches on registers: two bits and fourteen, around the register |
| `BranchPatch.CallWord` | src/cpu/sparc/vm/assembler_sparc.cpp:104-127 | calls: the low thirty bits |
| `ArgLayout.CountPass` | src/cpu/sparc/vm/args.cc:103-128 | the counts of the first pass are those of the reference layout |
| `ArgLayout.PlaceNext` | src/cpu/sparc/vm/args.cc:140-193 | one letter: accepted if and only if well formed, and then the place of the reference layout |
| `ArgLayout.JavaConvention` | src/cpu/sparc/vm/args.cc:80-194 | the table is filled in place with the reference layout if and only if mode and signature are supported; each entry reads back as its place, a pair with its first half low; the rest of the table is unchanged |
| `ArgLayout.EntryReads` | src/cpu/sparc/vm/args.cc:63-72 | an entry printed by its low sixteen bits and those above gives the place: one cell, a pair, or nothing |
| `ArgLayout.LayoutPass` | src/cpu/sparc/vm/args.cc:135-193 | the second pass, letter by letter in place; it ends having used just the registers and slots the first pass counted |
| `ArgLayout.PlaceWithin` | src/cpu/sparc/vm/args.cc:95-99 | every argument has a place, inside the argument registers of its kind and mode or on the stack |
| `ArgLayout.PairsAligned` | src/cpu/sparc/vm/args.cc:130-134 | longs and doubles are aligned in every area |
| `ArgLayout.PlacesApart` | src/cpu/sparc/vm/args.cc:95-99 | no two arguments of a signature share a register or stack slot |
| `ArgLayout.NoGaps` | src/cpu/sparc/vm/args.cc:95-99 | every argument is first in its area or directly behind another, up to the padding of pairs |
| `ArgLayout.SpillsOnlyWhenFull` | src/cpu/sparc/vm/args.cc:95-99 | an argument goes to the stack only when the registers of its kind are full |
| `ArgLayout.InOrder` | src/cpu/sparc/vm/args.cc:95-99 | single places of an area, and pairs, are in the order of the signature |
| `MoreMonitors.InterpreterFrame.MoreMonitors` | src/cpu/sparc/vm/cppInterpreter_sparc.cpp:1338-1373 | the operands are the same after the overlapping move, older monitors are untouched, the new slot is empty, all pointers moved alike |
| `MoreMonitors.MoveDown` | src/cpu/sparc/vm/cppInterpreter_sparc.cpp:1359-1368 | the overlapping copy loop moves every word of the range and changes no other |
| `ObjectInit.InitializeBody` | src/cpu/sparc/vm/c1_MacroAssembler_sparc.cpp:195-202 | exactly the words of the body are cleared |
| `ObjectInit.InitializeObject` | src/cpu/sparc/vm/c1_MacroAssembler_sparc.cpp:234-297 | header set, body clear, nothing else changed, on each of the three paths |

## Left out

- Inflation, revocation at safepoints and the runtime's slow paths of locking: a thread that needs them leaves the
  model without the lock.
- The lock code's variants for other settings of EmitSync: only the default path is modelled.
- Recursion beyond the fast path on a monitor: the emitted code does not handle it either.
- Atomic instructions are single steps and memory is sequentially consistent except in the card barrier, where stores
  are buffered.
- `SatbBarrier`: marking is active from the snapshot on; its start and end happen at safepoints and are not modelled.
- `CardBarrier`: allocation, evacuation, the refinement cache, and a mutator that processes its own buffer when too
  many are waiting.
- `CardBarrierSafety.NoReferenceLost`: the remembered set only grows; its clean-up is not modelled.
- `KlassHierarchy`: the order of and duplicates in the transitive interfaces, which the scan does not depend on; array
  klasses made before Object, Cloneable and Serializable are.
- `SubtypeCheck`: klasses created while a check runs; they leave those it reads as they are (`SameSecondaries`).
- `SubtypeFastPath.FastPathDecides`: for distinct registers, the only ones with which it holds (`FastPathRightIff`).
- `SubtypeCheck.EmittedFastStep`: likewise.
- `DelaySlotSemantics.FillPreservesRuns`: operands of moves are in registers the allocator gives out; traps of null
  checks are not modelled.
- `DelaySlotCode`: moves to fields through an index register, of constants other than ints, and between stack slots.
- `ArgLayout.JavaConvention`: that entries are read back as places is stated for signatures whose slot numbers have
  sixteen bits, of up to 30767 letters; the tool's own table has 1000 entries.
- `ObjectInit.InitializeObject`: the choice between the loop and explicit stores, which shows only in code size.
- `LongShift.RightIff`: the halves of a long are in different registers, and none is the zero register.
- `ArgLayout`: the native convention, in which an argument's place depends on its position alone.
- Floating point code, the interpreters' dispatch, native wrappers, relocation and the disassembler.
