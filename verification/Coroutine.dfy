/** A generator's frame across suspension: the register file and the traps survive being moved. */
module Coroutine {
  import opened Bytecode
  import opened Frames
  import opened VM

  /** Suspend a frame, enter another call, and resume on top of it: every register that was kept and every
      trap is back, in order, moved by the distance between the two bases. */
  method YieldResume(vm: LVVM, g: Generator, target: int, put: int, newbase: int, newtop: int, newvals: int)
    requires vm.Valid() && g.Valid() && g.state == Running && vm.callsstack != []
      && 1 <= target <= vm.top - vm.stackbase && newvals >= 0 && (put != NOTHING ==> 0 <= put < vm.top - vm.stackbase)
    requires var f := Inner(vm.callsstack); var base := vm.stackbase - f.prevstkbase;
      base <= newbase <= base + f.prevtop <= newtop && newbase <= newtop
    modifies vm, g, vm.Open()
    ensures vm.Valid() && g.Valid() && g.state == Running && vm.stackbase == newtop
    ensures |old(vm.stack)| >= old(vm.stackbase) + target && |vm.stack| >= newtop + target
    ensures vm.stack[newtop..newtop + target] == old(vm.stack)[old(vm.stackbase)..old(vm.stackbase) + target]
    ensures Inner(old(vm.callsstack)).etraps <= |old(vm.etraps)| && vm.callsstack != []
    ensures Inner(vm.callsstack).etraps == Inner(old(vm.callsstack)).etraps <= |vm.etraps|
    ensures Segment(vm.callsstack, vm.etraps)
      == Shift(Segment(old(vm.callsstack), old(vm.etraps)), newtop - old(vm.stackbase))
  {
    hide Framed, Base, AllBelong, Belongs, Suspend, Restore, Shift, LVVM.Read;
    InnerFramed(vm.callsstack, vm.etraps, vm.top, |vm.stack| - MIN_STACK_OVERHEAD);
    ghost var traps, base := Segment(vm.callsstack, vm.etraps), vm.stackbase;
    ghost var regs := vm.stack[base..base + target];
    var yielded := vm.Yield(g, target, put);
    ghost var saved := g.etraps;
    assert g.stack[..target] == regs;
    vm.EnterFrame(newbase, newtop, newvals);
    ghost var below := vm.etraps;
    var resumed := vm.Resume(g, newvals);
    assert vm.stack[newtop..newtop + target] == regs;
    SuspendRestore(traps, base, newtop);
    assert vm.etraps[|below|..] == Restore(saved, newtop);
  }

  /** Two variables of a generator are captured, and one of them is yielded: that one is kept, the other lost. */
  method YieldOneOfTwo(x: Val, y: Val) returns (kept: Val, lost: Val)
    ensures kept == x && lost == Null
  {
    hide *;
    var vm, first, second := TwoCaptured(x, y);
    var g := new Generator();
    Owners(vm, first, second);
    var ok := vm.Yield(g, 3, 1);
    kept, lost := Captured(vm, first), Captured(vm, second);
  }

  lemma Owners(vm: LVVM, first: Outer, second: Outer)
    requires first.idx == vm.stackbase + 1 && second.idx == vm.stackbase + 2
    ensures Yielded(1, vm.stackbase, first.idx) && !Yielded(1, vm.stackbase, second.idx)
    ensures first.idx >= vm.stackbase && second.idx >= vm.stackbase
  {
  }

  /** A frame with two variables, both captured. */
  method TwoCaptured(x: Val, y: Val) returns (vm: LVVM, first: Outer, second: Outer)
    ensures fresh(vm) && vm.Valid() && vm.callsstack != [] && vm.stackbase == 0 && vm.top == 3
    ensures first in vm.openouters && first.idx == 1 && vm.Read(first) == x
    ensures second in vm.openouters && second.idx == 2 && vm.Read(second) == y
    ensures forall o :: o in vm.Open() ==> fresh(o)
  {
    hide Framed, Base, LVVM.Outers, LVVM.Read;
    vm := new LVVM(0, MIN_STACK_OVERHEAD);
    vm.EnterFrame(0, 3, 0);
    SetLocal(vm, 1, x);
    SetLocal(vm, 2, y);
    first := vm.FindOuter(1);
    second := vm.FindOuter(2);
    assert first in vm.openouters;
    vm.ShowsSlot(first);
    vm.ShowsSlot(second);
  }

  /** A variable is assigned. */
  method SetLocal(vm: LVVM, n: nat, v: Val)
    requires vm.Valid() && n < vm.top - vm.stackbase
    modifies vm`stack
    ensures vm.Valid() && vm.stack == old(vm.stack)[vm.stackbase + n := v]
  {
    hide Framed, Base;
    vm.stack := vm.stack[vm.stackbase + n := v];
  }

  /** What a closure sees. */
  function Captured(vm: LVVM, o: Outer): (v: Val)
    reads vm`vals, vm`stack, o
    ensures v == vm.Read(o)
  {
    if o.valptr == OWN then o.value
    else if 0 <= o.valptr - vm.vals < |vm.stack| then vm.stack[o.valptr - vm.vals]
    else Null
  }
}
