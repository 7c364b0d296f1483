/** Call frames, exception traps, captured variables and generators: how activations come and go on one
    value stack that may move in memory while it grows. */
module Frames {
  import opened Bytecode

  const MIN_STACK_OVERHEAD := 15

  /** The pointer of a closed outer: to its own `value`. Pointers into the stack are addresses of slots. */
  const OWN := -1

  datatype Trap = Trap(stacksize: int, stackbase: int, ip: int, extarget: int)

  datatype Frame = Frame(prevstkbase: int, prevtop: int, etraps: nat, ncalls: int, gen: Generator?, root: bool, ip: int)

  // --- frames and their traps

  /** Where the frames' registers begin: each frame recorded its distance from the one below. */
  function Base(frames: seq<Frame>): int {
    if frames == [] then 0 else Base(frames[..|frames| - 1]) + frames[|frames| - 1].prevstkbase
  }

  function Inner(frames: seq<Frame>): Frame
    requires frames != []
  {
    frames[|frames| - 1]
  }

  /** The traps of the innermost frame. */
  function Segment(frames: seq<Frame>, traps: seq<Trap>): seq<Trap>
    requires frames != [] && Inner(frames).etraps <= |traps|
  {
    traps[|traps| - Inner(frames).etraps..]
  }

  /** A trap of a frame with this base and top, whose exception goes to one of the frame's registers. */
  predicate Belongs(t: Trap, base: int, top: int) {
    t.stackbase == base && t.stacksize == top && 0 <= t.extarget < top - base
  }

  predicate AllBelong(traps: seq<Trap>, base: int, top: int) {
    forall k :: 0 <= k < |traps| ==> Belongs(traps[k], base, top)
  }

  /** `traps` is made of one segment for each frame, and every trap of a frame recorded that frame's base
      and top; no top is above `room`. */
  predicate Framed(frames: seq<Frame>, traps: seq<Trap>, top: int, room: int)
    decreases |frames|
  {
    top <= room &&
    if frames == [] then traps == []
    else
      var f := Inner(frames);
      var callers := frames[..|frames| - 1];
      && 0 <= f.prevstkbase <= f.prevtop && f.etraps <= |traps| && AllBelong(Segment(frames, traps), Base(frames), top)
      && Framed(callers, traps[..|traps| - f.etraps], Base(callers) + f.prevtop, room)
  }

  /** The top of frame `k`: what the frame above recorded, or the machine's own. */
  function TopOf(frames: seq<Frame>, top: int, k: int): int
    requires 0 <= k < |frames|
  {
    if k == |frames| - 1 then top else Base(frames[..k + 1]) + frames[k + 1].prevtop
  }

  function SumTraps(frames: seq<Frame>): nat {
    if frames == [] then 0 else SumTraps(frames[..|frames| - 1]) + Inner(frames).etraps
  }

  lemma {:induction false} FramedCount(frames: seq<Frame>, traps: seq<Trap>, top: int, room: int)
    requires Framed(frames, traps, top, room)
    ensures |traps| == SumTraps(frames)
    decreases |frames|
  {
    if frames != [] {
      var callers := frames[..|frames| - 1];
      FramedCount(callers, traps[..|traps| - Inner(frames).etraps], Base(callers) + Inner(frames).prevtop, room);
    }
  }

  lemma {:induction false} BaseNonNegative(frames: seq<Frame>, traps: seq<Trap>, top: int, room: int)
    requires Framed(frames, traps, top, room)
    ensures Base(frames) >= 0
    decreases |frames|
  {
    if frames != [] {
      var callers := frames[..|frames| - 1];
      BaseNonNegative(callers, traps[..|traps| - Inner(frames).etraps], Base(callers) + Inner(frames).prevtop, room);
    }
  }

  /** Every trap of every frame, not just the innermost, recorded that frame's base and top. */
  lemma {:induction false} TrapsOf(frames: seq<Frame>, traps: seq<Trap>, top: int, room: int, k: int)
    requires Framed(frames, traps, top, room) && 0 <= k < |frames|
    ensures SumTraps(frames[..k + 1]) <= |traps|
      && SumTraps(frames[..k]) + frames[k].etraps == SumTraps(frames[..k + 1])
    ensures forall j :: SumTraps(frames[..k]) <= j < SumTraps(frames[..k + 1]) ==>
      Belongs(traps[j], Base(frames[..k + 1]), TopOf(frames, top, k))
    decreases |frames|
  {
    FramedCount(frames, traps, top, room);
    var callers := frames[..|frames| - 1];
    var rest := traps[..|traps| - Inner(frames).etraps];
    FramedCount(callers, rest, Base(callers) + Inner(frames).prevtop, room);
    if k == |frames| - 1 {
      assert frames[..k + 1] == frames && frames[..k] == callers;
      forall j | |rest| <= j < |traps| ensures Belongs(traps[j], Base(frames), top) {
        assert traps[j] == Segment(frames, traps)[j - |rest|];
      }
    } else {
      TrapsOf(callers, rest, Base(callers) + Inner(frames).prevtop, room, k);
      assert callers[..k + 1] == frames[..k + 1] && callers[..k] == frames[..k] && callers[k] == frames[k];
      assert TopOf(callers, Base(callers) + Inner(frames).prevtop, k) == TopOf(frames, top, k) by {
        if k == |callers| - 1 {
          assert frames[..k + 1] == callers;
        }
      }
    }
  }

  // --- what a throw finds

  /** The innermost frame with a trap, no further out than the root of this activation; -1 if there is none. */
  function Catcher(frames: seq<Frame>): (c: int)
    ensures -1 <= c < |frames| && (c >= 0 ==> frames[c].etraps > 0)
    decreases |frames|
  {
    if frames == [] then -1
    else if Inner(frames).etraps > 0 then |frames| - 1
    else if Inner(frames).root then -1
    else Catcher(frames[..|frames| - 1])
  }

  /** How many frames are left when no frame catches. */
  function Unwound(frames: seq<Frame>): (n: int)
    ensures 0 <= n <= |frames|
    decreases |frames|
  {
    if frames == [] then 0
    else if Inner(frames).root then |frames| - 1
    else Unwound(frames[..|frames| - 1])
  }

  lemma {:induction false} CatcherIs(frames: seq<Frame>)
    ensures var c := Catcher(frames);
      && -1 <= c < |frames|
      && (c >= 0 ==> frames[c].etraps > 0 && forall k :: c < k < |frames| ==> frames[k].etraps == 0 && !frames[k].root)
      && (c == -1 ==> forall k :: 0 <= k < |frames| && (forall j :: k < j < |frames| ==> !frames[j].root) ==>
      frames[k].etraps == 0)
    decreases |frames|
  {
    if frames != [] {
      CatcherIs(frames[..|frames| - 1]);
      var callers := frames[..|frames| - 1];
      if Catcher(frames) == -1 && !Inner(frames).root {
        forall k | 0 <= k < |frames|
          && (forall j :: k < j < |frames| ==> !frames[j].root) ensures frames[k].etraps == 0 {
          if k < |callers| {
            assert callers[k] == frames[k];
            forall j | k < j < |callers| ensures !callers[j].root {
              assert callers[j] == frames[j];
            }
          }
        }
      }
    }
  }

  // --- generators

  /** The traps of a frame as a generator stores them: popped one by one, and relative to the frame. */
  function Suspend(traps: seq<Trap>, base: int): (s: seq<Trap>)
    ensures |s| == |traps|
  {
    if traps == [] then []
    else
      var t := traps[|traps| - 1];
      [t.(stackbase := t.stackbase - base, stacksize := t.stacksize - base)] + Suspend(traps[..|traps| - 1], base)
  }

  /** And back: popped one by one again, and relative to another base. */
  function Restore(saved: seq<Trap>, base: int): (s: seq<Trap>)
    ensures |s| == |saved|
  {
    if saved == [] then []
    else
      var t := saved[|saved| - 1];
      [t.(stackbase := t.stackbase + base, stacksize := t.stacksize + base)] + Restore(saved[..|saved| - 1], base)
  }

  function Shift(traps: seq<Trap>, d: int): (s: seq<Trap>)
    ensures |s| == |traps|
    ensures forall k :: 0 <= k < |traps| ==>
      s[k] == traps[k].(stackbase := traps[k].stackbase + d, stacksize := traps[k].stacksize + d)
  {
    seq(|traps|,
      k requires 0 <= k < |traps| => traps[k].(stackbase := traps[k].stackbase + d,
      stacksize := traps[k].stacksize + d))
  }

  lemma {:induction false} RestoreSnoc(s: seq<Trap>, t: Trap, base: int)
    ensures Restore([t] + s, base) == Restore(s, base)
      + [t.(stackbase := t.stackbase + base, stacksize := t.stacksize + base)]
    decreases |s|
  {
    if s == [] {
      assert [t] + s == [t];
      assert Restore([t][..0], base) == [];
    } else {
      var n := |s| - 1;
      assert ([t] + s)[..n + 1] == [t] + s[..n];
      RestoreSnoc(s[..n], t, base);
    }
  }

  /** Suspending and restoring at any other base gives the traps back in order, moved with their frame. */
  lemma {:induction false} SuspendRestore(traps: seq<Trap>, base: int, newbase: int)
    ensures Restore(Suspend(traps, base), newbase) == Shift(traps, newbase - base)
    decreases |traps|
  {
    if traps != [] {
      var n := |traps| - 1;
      var t := traps[n];
      SuspendRestore(traps[..n], base, newbase);
      RestoreSnoc(Suspend(traps[..n], base), t.(stackbase := t.stackbase - base, stacksize := t.stacksize - base),
        newbase);
      assert Shift(traps, newbase - base) == Shift(traps[..n], newbase - base) + [Shift(traps, newbase - base)[n]];
    }
  }

  datatype GenState = Running | Suspended | Dead

  class Generator {
    var state: GenState
    var stack: seq<Val>
    var etraps: seq<Trap>
    var ci: Frame

    /** A suspended generator's traps are those of its frame, relative to it. */
    ghost predicate Stored()
      reads this
    {
      |stack| >= 1 && |etraps| == ci.etraps && AllBelong(etraps, 0, |stack|)
    }

    /** Only a suspended generator holds traps. */
    ghost predicate Valid()
      reads this
    {
      (state == Running ==> etraps == []) && (state == Suspended ==> Stored())
    }

    constructor ()
      ensures Valid() && state == Running && etraps == [] && stack == []
    {
      state, stack, etraps := Running, [], [];
      ci := Frame(0, 0, 0, 1, null, false, 0);
    }

    method Kill()
      modifies this
      ensures Valid() && state == Dead && stack == [] && etraps == old(etraps) && ci == old(ci)
    {
      state := Dead;
      stack := [];
    }
  }

  class Outer {
    var valptr: int
    const idx: int
    var value: Val

    constructor (valptr: int, idx: int)
      ensures this.valptr == valptr && this.idx == idx
    {
      this.valptr, this.idx, this.value := valptr, idx, Null;
    }
  }

  // --- lemmas for the steps of a run

  /** More room does no harm. */
  lemma {:induction false} MoreRoom(frames: seq<Frame>, traps: seq<Trap>, top: int, room: int, room': int)
    requires Framed(frames, traps, top, room) && room <= room'
    ensures Framed(frames, traps, top, room')
    decreases |frames|
  {
    if frames != [] {
      var callers := frames[..|frames| - 1];
      MoreRoom(callers, traps[..|traps| - Inner(frames).etraps], Base(callers) + Inner(frames).prevtop, room, room');
    }
  }

  lemma EnterFramed(frames: seq<Frame>, traps: seq<Trap>, top: int, room: int, f: Frame, newtop: int)
    requires Framed(frames, traps, top, room) && f.etraps == 0 && 0 <= f.prevstkbase <= f.prevtop
      && Base(frames) + f.prevtop == top && newtop <= room
    ensures Framed(frames + [f], traps, newtop, room) && Base(frames + [f]) == Base(frames) + f.prevstkbase
  {
    assert (frames + [f])[..|frames|] == frames;
    assert traps[..|traps|] == traps;
  }

  lemma LeaveFramed(frames: seq<Frame>, traps: seq<Trap>, top: int, room: int)
    requires Framed(frames, traps, top, room) && frames != [] && Inner(frames).etraps == 0
    ensures Framed(frames[..|frames| - 1], traps, Base(frames[..|frames| - 1]) + Inner(frames).prevtop, room)
  {
    assert traps[..|traps|] == traps;
  }

  /** A frame with another number of traps, its own segment replaced. */
  lemma Refitted(frames: seq<Frame>, traps: seq<Trap>, top: int, room: int, f: Frame, rest: seq<Trap>,
      segment: seq<Trap>)
    requires Framed(frames, traps, top, room) && frames != [] && f.prevstkbase == Inner(frames).prevstkbase
      && f.prevtop == Inner(frames).prevtop
    requires rest == traps[..|traps| - Inner(frames).etraps] && f.etraps == |segment|
      && AllBelong(segment, Base(frames), top)
    ensures Framed(frames[|frames| - 1 := f], rest + segment, top, room)
      && Base(frames[|frames| - 1 := f]) == Base(frames)
  {
    var frames' := frames[|frames| - 1 := f];
    assert frames'[..|frames'| - 1] == frames[..|frames| - 1];
    assert Segment(frames', rest + segment) == segment;
    assert (rest + segment)[..|rest + segment| - f.etraps] == rest;
  }

  lemma PushFramed(frames: seq<Frame>, traps: seq<Trap>, top: int, room: int, t: Trap)
    requires Framed(frames, traps, top, room) && frames != [] && Belongs(t, Base(frames), top)
    ensures var f := Inner(frames).(etraps := Inner(frames).etraps + 1);
      Framed(frames[|frames| - 1 := f], traps + [t], top, room) && Base(frames[|frames| - 1 := f]) == Base(frames)
  {
    var f := Inner(frames).(etraps := Inner(frames).etraps + 1);
    var rest := traps[..|traps| - Inner(frames).etraps];
    Refitted(frames, traps, top, room, f, rest, Segment(frames, traps) + [t]);
    assert rest + (Segment(frames, traps) + [t]) == traps + [t];
  }

  lemma PopFramed(frames: seq<Frame>, traps: seq<Trap>, top: int, room: int)
    requires Framed(frames, traps, top, room) && frames != [] && Inner(frames).etraps > 0
    ensures |traps| > 0
    ensures var f := Inner(frames).(etraps := Inner(frames).etraps - 1);
      && Framed(frames[|frames| - 1 := f], traps[..|traps| - 1], top, room)
      && Base(frames[|frames| - 1 := f]) == Base(frames)
      && Belongs(traps[|traps| - 1], Base(frames), top)
  {
    var n := Inner(frames).etraps;
    var f := Inner(frames).(etraps := n - 1);
    var rest := traps[..|traps| - n];
    var segment := Segment(frames, traps);
    Refitted(frames, traps, top, room, f, rest, segment[..n - 1]);
    assert rest + segment[..n - 1] == traps[..|traps| - 1];
    assert segment[n - 1] == traps[|traps| - 1];
  }

  /** A suspended frame put back on top of the stack. */
  lemma ResumeFramed(frames: seq<Frame>, traps: seq<Trap>, top: int, room: int, f: Frame, saved: seq<Trap>, size: int)
    requires Framed(frames, traps, top, room) && 0 <= f.prevstkbase == f.prevtop && Base(frames) + f.prevtop == top
      && f.etraps == |saved|
    requires AllBelong(saved, 0, size) && top + size <= room
    ensures Framed(frames + [f], traps + Restore(saved, top), top + size, room) && Base(frames + [f]) == top
  {
    hide Framed, Restore, AllBelong;
    RestoredAt(saved, top, size);
    var g := f.(etraps := 0);
    EnterFramed(frames, traps, top, room, g, top + size);
    assert traps == traps[..|traps| - 0];
    Refitted(frames + [g], traps, top + size, room, f, traps, Restore(saved, top));
    assert (frames + [g])[|frames| := f] == frames + [f];
  }

  lemma {:induction false} RestoredAt(saved: seq<Trap>, base: int, size: int)
    requires AllBelong(saved, 0, size)
    ensures AllBelong(Restore(saved, base), base, base + size)
    decreases |saved|
  {
    if saved != [] {
      RestoredAt(saved[..|saved| - 1], base, size);
      assert Belongs(saved[|saved| - 1], 0, size);
    }
  }

  lemma {:induction false} SuspendedAt(traps: seq<Trap>, base: int, top: int)
    requires AllBelong(traps, base, top)
    ensures AllBelong(Suspend(traps, base), 0, top - base)
    decreases |traps|
  {
    if traps != [] {
      SuspendedAt(traps[..|traps| - 1], base, top);
      assert Belongs(traps[|traps| - 1], base, top);
    }
  }

  lemma InnerFramed(frames: seq<Frame>, traps: seq<Trap>, top: int, room: int)
    requires Framed(frames, traps, top, room) && frames != []
    ensures var f := Inner(frames); var callers := frames[..|frames| - 1];
      && 0 <= f.prevstkbase <= f.prevtop && f.etraps <= |traps| && AllBelong(Segment(frames, traps), Base(frames), top)
      && Framed(callers, traps[..|traps| - f.etraps], Base(callers) + f.prevtop, room)
      && Base(callers) >= 0 && Base(callers) + f.prevtop <= room && Base(frames) == Base(callers) + f.prevstkbase
  {
    var callers := frames[..|frames| - 1];
    BaseNonNegative(callers, traps[..|traps| - Inner(frames).etraps], Base(callers) + Inner(frames).prevtop, room);
  }

  lemma TailFramed(frames: seq<Frame>, traps: seq<Trap>, top: int, newtop: int, room: int, f: Frame)
    requires Framed(frames, traps, top, room) && frames != [] && Inner(frames).etraps == 0
      && f == Inner(frames).(ncalls := f.ncalls) && newtop <= room
    ensures Framed(frames[|frames| - 1 := f], traps, newtop, room) && Base(frames[|frames| - 1 := f]) == Base(frames)
  {
    assert frames[|frames| - 1 := f][..|frames| - 1] == frames[..|frames| - 1];
  }

  /** Traps do not depend on which frames are roots. */
  lemma RootFramed(frames: seq<Frame>, traps: seq<Trap>, top: int, room: int, f: Frame)
    requires Framed(frames, traps, top, room) && frames != [] && f == Inner(frames).(root := true)
    ensures Framed(frames[|frames| - 1 := f], traps, top, room) && Base(frames[|frames| - 1 := f]) == Base(frames)
  {
    assert frames[|frames| - 1 := f][..|frames| - 1] == frames[..|frames| - 1];
  }
}
