/** Whole runs of the machine: calls, tail calls, returns, traps, throws, captures, and generators that are
    started, yield and are resumed, in any order. */
module Machine {
  import opened Bytecode
  import opened Frames
  import opened VM

  datatype Request =
    | Call(base: nat, size: nat, newvals: nat, root: bool)
    | TailCall(args: nat, nargs: nat, size: nat, newvals: nat)
    | Return
    | Try(ip: int, extarget: nat)
    | EndTry(n: nat)
    | Raise(error: Val)
    | Capture(slot: nat)
    | Close(slot: nat)
    | Start
    | Yield(target: nat, put: nat)
    | Resume(k: nat, newvals: nat, root: bool)

  /** The generators running are those of some frame, each of one frame only. */
  ghost predicate Runs(frames: seq<Frame>, running: set<Generator>) {
    && (forall k :: 0 <= k < |frames| && frames[k].gen != null ==> frames[k].gen in running)
    && (forall g: Generator :: g in running ==> exists k :: 0 <= k < |frames| && frames[k].gen == g)
    && (forall j, k :: 0 <= j < k < |frames| && frames[j].gen != null ==> frames[j].gen != frames[k].gen)
  }

  ghost function Active(gens: seq<Generator>): set<Generator>
    reads gens
  {
    set g | g in gens && g.state == Running
  }

  ghost predicate Good(vm: LVVM, gens: seq<Generator>)
    reads vm, vm.openouters, gens
  {
    vm.Valid() && (forall g :: g in gens ==> g.Valid()) && Runs(vm.callsstack, Active(gens))
  }

  lemma RunsLike(a: seq<Frame>, b: seq<Frame>, running: set<Generator>)
    requires Runs(a, running) && |a| == |b| && forall k :: 0 <= k < |a| ==> b[k].gen == a[k].gen
    ensures Runs(b, running)
  {
    forall g: Generator | g in running ensures exists k :: 0 <= k < |b| && b[k].gen == g {
      var k :| 0 <= k < |a| && a[k].gen == g;
      assert b[k].gen == g;
    }
  }

  lemma RunsPush(a: seq<Frame>, f: Frame, running: set<Generator>)
    requires Runs(a, running) && (f.gen != null ==> f.gen !in running)
    ensures Runs(a + [f], if f.gen == null then running else running + {f.gen})
  {
    var b := a + [f];
    assert b[|a|] == f;
    forall g: Generator | g in running ensures exists k :: 0 <= k < |b| && b[k].gen == g {
      var k :| 0 <= k < |a| && a[k].gen == g;
      assert b[k].gen == g;
    }
  }

  lemma RunsCut(a: seq<Frame>, n: nat, running: set<Generator>)
    requires Runs(a, running) && n <= |a|
    ensures Runs(a[..n], running - Generators(a[n..]))
  {
    var b := a[..n];
    var left := Generators(a[n..]);
    forall g: Generator | g in running && g !in left ensures exists k :: 0 <= k < |b| && b[k].gen == g {
      var k :| 0 <= k < |a| && a[k].gen == g;
      assert b[k].gen == g;
    }
    forall k | 0 <= k < n && b[k].gen != null ensures b[k].gen in running && b[k].gen !in left {
      assert b[k] == a[k];
    }
  }

  lemma InnerLast(a: seq<Frame>)
    requires a != []
    ensures a[|a| - 1..] == [Inner(a)] && Generators([Inner(a)]) == if Inner(a).gen == null then {} else {Inner(a).gen}
  {
    assert Inner(a) in [Inner(a)];
  }

  /** What a step keeps: a dead generator is dead, and an outer leaves the list only with its value. */
  twostate predicate Onward(vm: LVVM, gens: seq<Generator>, open: set<Outer>)
    reads vm, gens, open
  {
    && (forall g :: g in gens && old(g.state) == Dead ==> g.state == Dead)
    && (forall o: Outer :: o in open ==> o in vm.Open() || o.valptr == OWN)
    && (forall o: Outer :: o in vm.Open() && o !in old(vm.Open()) ==> fresh(o))
  }

  /** The frame entered is the root of an activation, if native code asked for the call. */
  method SetRoot(vm: LVVM, ghost gens: seq<Generator>, root: bool)
    requires Good(vm, gens) && vm.callsstack != []
    modifies vm`callsstack
    ensures Good(vm, gens)
  {
    hide Framed, Base, LVVM.Outers, Runs;
    if root {
      ghost var frames := vm.callsstack;
      vm.MarkRoot();
      RunsLike(frames, vm.callsstack, Active(gens));
    }
  }

  method DoCall(vm: LVVM, ghost gens: seq<Generator>, base: nat, size: nat, newvals: nat, root: bool)
    requires Good(vm, gens)
    modifies vm, vm.Open()
    ensures Good(vm, gens) && Onward(vm, gens, old(vm.Open()))
  {
    hide Framed, Base, LVVM.Read, LVVM.Outers, Runs;
    var newbase := vm.stackbase + base;
    if newbase <= vm.top && (|vm.openouters| == 0 || vm.openouters[0].idx < newbase + size) {
      ghost var frames := vm.callsstack;
      Below(vm, newbase + size);
      vm.EnterFrame(newbase, newbase + size, newvals);
      RunsPush(frames, Inner(vm.callsstack), Active(gens));
      SetRoot(vm, gens, root);
    }
  }

  /** The first outer of the list is the highest. */
  lemma Below(vm: LVVM, top: int)
    requires vm.Valid() && (|vm.openouters| == 0 || vm.openouters[0].idx < top)
    ensures forall o :: o in vm.openouters ==> o.idx < top
  {
    hide Framed, Base;
  }

  method DoTailCall(vm: LVVM, ghost gens: seq<Generator>, args: nat, nargs: nat, size: nat, newvals: nat)
    requires Good(vm, gens)
    modifies vm, vm.Open()
    ensures Good(vm, gens) && Onward(vm, gens, old(vm.Open()))
  {
    hide Framed, Base, LVVM.Read, LVVM.Outers, Runs;
    if vm.callsstack != [] && Inner(vm.callsstack).etraps == 0 && vm.stackbase + args + nargs <= vm.top {
      ghost var frames := vm.callsstack;
      vm.TailCall(args, nargs, vm.stackbase + size, newvals);
      RunsLike(frames, vm.callsstack, Active(gens));
    }
  }

  /** A return kills the generator whose body it ends. */
  method DoReturn(vm: LVVM, ghost gens: seq<Generator>)
    requires Good(vm, gens)
    modifies vm, vm.Open(), gens
    ensures Good(vm, gens) && Onward(vm, gens, old(vm.Open()))
  {
    hide Framed, Base, LVVM.Read, LVVM.Outers, Runs, TopOf;
    if vm.callsstack != [] && Inner(vm.callsstack).etraps == 0 {
      ghost var frames, active := vm.callsstack, Active(gens);
      InnerRuns(frames, active);
      InnerLast(frames);
      RunsCut(frames, |frames| - 1, active);
      var gen := Inner(vm.callsstack).gen;
      if gen != null {
        gen.Kill();
      }
      OwnTop(frames, vm.top);
      vm.Unwind(vm.callsstack, vm.top);
      assert Active(gens) == active - Generators([Inner(frames)]);
    }
  }

  lemma OwnTop(frames: seq<Frame>, top: int)
    requires frames != []
    ensures TopOf(frames, top, |frames| - 1) == top
  {
  }

  lemma InnerRuns(frames: seq<Frame>, active: set<Generator>)
    requires Runs(frames, active) && frames != []
    ensures Inner(frames).gen != null ==> Inner(frames).gen in active
  {
  }

  method DoTry(vm: LVVM, ghost gens: seq<Generator>, ip: int, extarget: nat)
    requires Good(vm, gens)
    modifies vm
    ensures Good(vm, gens) && Onward(vm, gens, old(vm.Open()))
  {
    hide Framed, Base, LVVM.Read, LVVM.Outers, Runs;
    if vm.callsstack != [] && extarget < vm.top - vm.stackbase {
      ghost var frames := vm.callsstack;
      vm.PushTrap(ip, extarget);
      RunsLike(frames, vm.callsstack, Active(gens));
    }
  }

  method DoEndTry(vm: LVVM, ghost gens: seq<Generator>, n: nat)
    requires Good(vm, gens)
    modifies vm
    ensures Good(vm, gens) && Onward(vm, gens, old(vm.Open()))
  {
    hide Framed, Base, LVVM.Read, LVVM.Outers, Runs;
    if vm.callsstack != [] && n <= Inner(vm.callsstack).etraps {
      ghost var frames := vm.callsstack;
      vm.PopTrap(n);
      RunsLike(frames, vm.callsstack, Active(gens));
    }
  }

  /** A throw kills the generators of the frames it leaves, and no other. */
  method DoRaise(vm: LVVM, ghost gens: seq<Generator>, error: Val)
    requires Good(vm, gens)
    modifies vm, vm.Open(), gens
    ensures Good(vm, gens) && Onward(vm, gens, old(vm.Open()))
    ensures |vm.callsstack| == Staying(old(vm.callsstack))
    ensures forall g: Generator :: g in gens ==>
      g.state == if g in Generators(old(vm.callsstack)[Staying(old(vm.callsstack))..]) then Dead else old(g.state)
  {
    hide Framed, Base, LVVM.Read, LVVM.Outers, Runs, TopOf, Catcher, Unwound;
    ghost var frames, active := vm.callsstack, Active(gens);
    ghost var n := Staying(frames);
    LeftRuns(frames, n, active);
    var caught := vm.Throw(error);
    RunsCut(frames, n, active);
    LeftAt(frames, n);
    assert Active(gens) == active - Generators(frames[n..]);
    RunsLike(frames[..n], vm.callsstack, Active(gens));
  }

  lemma LeftRuns(frames: seq<Frame>, n: nat, active: set<Generator>)
    requires Runs(frames, active) && n <= |frames|
    ensures Generators(frames[n..]) <= active
  {
    forall f | f in frames[n..] && f.gen != null ensures f.gen in active {
      var k :| 0 <= k < |frames[n..]| && frames[n..][k] == f;
      assert frames[n + k] == f;
    }
  }

  /** Where the generators of the frames left are. */
  lemma LeftAt(frames: seq<Frame>, n: nat)
    requires n <= |frames|
    ensures forall g: Generator :: g in Generators(frames[n..]) ==> exists k :: n <= k < |frames| && frames[k].gen == g
  {
    forall g: Generator | g in Generators(frames[n..]) ensures exists k :: n <= k < |frames| && frames[k].gen == g {
      var f :| f in frames[n..] && f.gen == g;
      var k :| 0 <= k < |frames[n..]| && frames[n..][k] == f;
      assert frames[n + k].gen == g;
    }
  }

  method DoCapture(vm: LVVM, ghost gens: seq<Generator>, slot: nat) returns (o: Outer?)
    requires Good(vm, gens)
    modifies vm
    ensures Good(vm, gens) && Onward(vm, gens, old(vm.Open()))
  {
    hide Framed, Base, LVVM.Read, LVVM.Outers, Runs;
    o := null;
    if slot < vm.top {
      o := vm.FindOuter(slot);
    }
  }

  /** Variables that go out of scope. */
  method DoClose(vm: LVVM, ghost gens: seq<Generator>, slot: nat)
    requires Good(vm, gens)
    modifies vm, vm.Open()
    ensures Good(vm, gens) && Onward(vm, gens, old(vm.Open()))
  {
    hide Framed, Base, LVVM.Read, LVVM.Outers, Runs;
    vm.CloseOuters(vm.stackbase + slot);
  }

  /** Calling a generator function: its frame is suspended before it runs anything. */
  method DoStart(vm: LVVM, gens: seq<Generator>) returns (gens': seq<Generator>)
    requires Good(vm, gens)
    modifies vm, vm.Open()
    ensures gens <= gens' && fresh(gens'[|gens|..]) && Good(vm, gens') && Onward(vm, gens, old(vm.Open()))
  {
    hide Framed, Base, LVVM.Read, LVVM.Outers, Runs, Segment, Suspend;
    gens' := gens;
    if vm.callsstack != [] && Inner(vm.callsstack).gen == null && vm.top > vm.stackbase {
      ghost var frames, active := vm.callsstack, Active(gens);
      InnerLast(frames);
      RunsCut(frames, |frames| - 1, active);
      var g := new Generator();
      var ok := vm.Yield(g, vm.top - vm.stackbase, NOTHING);
      gens' := gens + [g];
      assert Active(gens') == active - Generators([Inner(frames)]);
    }
  }

  method DoYield(vm: LVVM, ghost gens: seq<Generator>, target: nat, put: nat)
    requires Good(vm, gens)
    modifies vm, vm.Open(), gens
    ensures Good(vm, gens) && Onward(vm, gens, old(vm.Open()))
  {
    hide Framed, Base, LVVM.Read, LVVM.Outers, Runs, Segment, Suspend;
    if vm.callsstack != [] && 1 <= target <= vm.top - vm.stackbase && (put == NOTHING || put < vm.top - vm.stackbase) {
      ghost var frames, active := vm.callsstack, Active(gens);
      var g := Inner(vm.callsstack).gen;
      if g != null {
        InnerRuns(frames, active);
        InnerLast(frames);
        RunsCut(frames, |frames| - 1, active);
        var ok := vm.Yield(g, target, put);
        assert Active(gens) == active - Generators([Inner(frames)]);
      }
    }
  }

  method DoResume(vm: LVVM, gens: seq<Generator>, k: nat, newvals: nat, root: bool)
    requires Good(vm, gens)
    modifies vm, vm.Open(), gens
    ensures Good(vm, gens) && Onward(vm, gens, old(vm.Open()))
  {
    hide Framed, Base, LVVM.Read, LVVM.Outers, Runs, Restore;
    if k < |gens| {
      ghost var frames, active := vm.callsstack, Active(gens);
      var ok := vm.Resume(gens[k], newvals);
      if ok {
        RunsPush(frames, Inner(vm.callsstack), active);
        assert vm.callsstack == frames + [Inner(vm.callsstack)];
        assert Active(gens) == active + {gens[k]};
        SetRoot(vm, gens, root);
      } else {
        assert Active(gens) == active;
      }
    }
  }

  /** One request; a request that the machine cannot be in a position to serve is left aside. */
  method Handle(vm: LVVM, gens: seq<Generator>, r: Request) returns (gens': seq<Generator>)
    requires Good(vm, gens)
    modifies vm, vm.Open(), gens
    ensures gens <= gens' && fresh(gens'[|gens|..]) && Good(vm, gens') && Onward(vm, gens, old(vm.Open()))
  {
    hide Runs, LVVM.Valid;
    gens' := gens;
    match r {
      case Call(base, size, newvals, root) => DoCall(vm, gens, base, size, newvals, root);
      case TailCall(args, nargs, size, newvals) => DoTailCall(vm, gens, args, nargs, size, newvals);
      case Return => DoReturn(vm, gens);
      case Try(ip, extarget) => DoTry(vm, gens, ip, extarget);
      case EndTry(n) => DoEndTry(vm, gens, n);
      case Raise(error) => DoRaise(vm, gens, error);
      case Capture(slot) => var o := DoCapture(vm, gens, slot);
      case Close(slot) => DoClose(vm, gens, slot);
      case Start => gens' := DoStart(vm, gens);
      case Yield(target, put) => DoYield(vm, gens, target, put);
      case Resume(k, newvals, root) => DoResume(vm, gens, k, newvals, root);
    }
  }

  ghost function States(gens: seq<Generator>): (r: seq<GenState>)
    reads gens
    ensures |r| == |gens| && forall k :: 0 <= k < |gens| ==> r[k] == gens[k].state
  {
    seq(|gens|, k requires 0 <= k < |gens| reads gens => gens[k].state)
  }

  /** A generator that is dead at some point is dead from then on. */
  ghost predicate StaysDead(trace: seq<seq<GenState>>) {
    forall i, j, k :: 0 <= i <= j < |trace| && 0 <= k < |trace[i]| && trace[i][k] == Dead ==>
      k < |trace[j]| && trace[j][k] == Dead
  }

  lemma StaysDeadOn(trace: seq<seq<GenState>>, states: seq<GenState>)
    requires StaysDead(trace) && trace != []
    requires var last := trace[|trace| - 1];
      forall k :: 0 <= k < |last| && last[k] == Dead ==> k < |states| && states[k] == Dead
    ensures StaysDead(trace + [states])
  {
    var last := trace[|trace| - 1];
    var more := trace + [states];
    forall i, k | 0 <= i < |trace| && 0 <= k < |trace[i]| && trace[i][k] == Dead ensures k < |states|
      && states[k] == Dead {
      assert k < |last| && last[k] == Dead;
    }
  }

  /** In every run: frames, traps and open outers fit together throughout; a generator is running exactly while
      one frame is its own, and no other is; no generator that was ever dead runs again; and no captured variable
      is left pointing to a slot that is not its own any more. */
  method Run(vals: nat, size: nat, rs: seq<Request>) returns (vm: LVVM, gens: seq<Generator>,
      ghost trace: seq<seq<GenState>>, ghost captured: set<Outer>)
    requires size >= MIN_STACK_OVERHEAD
    ensures Good(vm, gens) && |trace| == |rs| + 1 && trace[|rs|] == States(gens) && StaysDead(trace)
    ensures vm.Open() <= captured && forall o: Outer :: o in captured ==> o in vm.Open() || o.valptr == OWN
  {
    hide Runs, LVVM.Valid, StaysDead;
    vm := new LVVM(vals, size);
    gens := [];
    Begins(vm);
    trace, captured := [States(gens)], {};
    OneState(States(gens));
    var i := 0;
    while i < |rs|
      invariant 0 <= i <= |rs| && |trace| == i + 1 && trace[i] == States(gens) && StaysDead(trace)
      invariant Good(vm, gens) && fresh(vm) && (forall o :: o in captured ==> fresh(o)) && forall k ::
        0 <= k < |gens| ==> fresh(gens[k])
      invariant vm.Open() <= captured && forall o: Outer :: o in captured ==> o in vm.Open() || o.valptr == OWN
    {
      ghost var before := gens;
      assert forall g :: g in gens ==> fresh(g);
      gens := Handle(vm, gens, rs[i]);
      assert forall k :: |before| <= k < |gens| ==> gens[k] == gens[|before|..][k - |before|];
      StaysDeadOn(trace, States(gens));
      trace, captured := trace + [States(gens)], captured + vm.Open();
      i := i + 1;
    }
  }

  lemma Begins(vm: LVVM)
    requires vm.Valid() && vm.callsstack == []
    ensures Good(vm, [])
  {
  }

  lemma OneState(states: seq<GenState>)
    ensures StaysDead([states])
  {
  }
}
