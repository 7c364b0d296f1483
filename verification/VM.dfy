/** `LVVM`'s frames: one value stack that may be moved in memory, a call stack, a stack of traps, and the
    list of outers that still point into the value stack. */
module VM {
  import opened Bytecode
  import opened Frames

  class LVVM {
    var vals: int                    // address of the first slot
    var stack: seq<Val>
    var top: int
    var stackbase: int
    var callsstack: seq<Frame>
    var etraps: seq<Trap>
    var openouters: seq<Outer>       // from the highest slot down

    /** Open outers point to distinct slots in use, from the top down. */
    ghost predicate Outers()
      reads this`vals, this`top, this`openouters, openouters
    {
      && (forall i :: 0 <= i < |openouters| ==>
      openouters[i].valptr == vals + openouters[i].idx && 0 <= openouters[i].idx < top)
      && (forall i, j :: 0 <= i < j < |openouters| ==> openouters[j].idx < openouters[i].idx)
    }

    ghost predicate Valid()
      reads this, openouters
    {
      && vals >= 0 && stackbase == Base(callsstack) && 0 <= stackbase <= top && top + MIN_STACK_OVERHEAD <= |stack|
      && Framed(callsstack, etraps, top, |stack| - MIN_STACK_OVERHEAD) && Outers()
    }

    constructor (vals: int, size: nat)
      requires vals >= 0 && size >= MIN_STACK_OVERHEAD
      ensures Valid() && callsstack == [] && openouters == [] && stackbase == top == 0
    {
      this.vals, stack, top, stackbase := vals, seq(size, _ => Null), 0, 0;
      callsstack, etraps, openouters := [], [], [];
    }

    ghost function Open(): set<Outer>
      reads this`openouters
    {
      set o | o in openouters
    }

    /** What a closure sees in a captured variable. */
    ghost function Read(o: Outer): Val
      reads this`vals, this`stack, o
    {
      if o.valptr == OWN then o.value
      else if 0 <= o.valptr - vals < |stack| then stack[o.valptr - vals]
      else Null
    }

    // --- captured variables

    /** The outer for a slot: the open one, or a new one in its place in the list. */
    method FindOuter(stackindex: int) returns (o: Outer)
      requires Valid() && 0 <= stackindex < top
      modifies this`openouters
      ensures Valid() && o in openouters && o.idx == stackindex && Read(o) == stack[stackindex]
      ensures (exists p :: p in old(openouters) && p.idx == stackindex) ==> openouters == old(openouters)
      ensures openouters != old(openouters) ==>
        fresh(o) && exists i ::
          0 <= i <= |old(openouters)| && openouters == old(openouters)[..i] + [o] + old(openouters)[i..]
      ensures forall p :: p in openouters && p.idx == stackindex ==> p == o
    {
      hide Framed;
      var i := 0;
      while i < |openouters| && openouters[i].valptr >= vals + stackindex
        invariant 0 <= i <= |openouters|
        invariant forall j :: 0 <= j < i ==> openouters[j].idx > stackindex
      {
        if openouters[i].valptr == vals + stackindex {
          return openouters[i];
        }
        i := i + 1;
      }
      o := new Outer(vals + stackindex, stackindex);
      Insert(i, o);
    }

    method Insert(i: int, o: Outer)
      requires Valid() && 0 <= i <= |openouters| && o.valptr == vals + o.idx && 0 <= o.idx < top
      requires (forall j :: 0 <= j < i ==> openouters[j].idx > o.idx)
        && (i < |openouters| ==> openouters[i].valptr < vals + o.idx)
      modifies this`openouters
      ensures Valid() && openouters == old(openouters)[..i] + [o] + old(openouters)[i..]
      ensures forall p :: p in openouters && p.idx == o.idx ==> p == o
    {
      hide Framed;
      var list := openouters;
      assert forall j :: i <= j < |list| ==> list[j].idx < o.idx;
      openouters := list[..i] + [o] + list[i..];
      assert forall j :: 0 <= j < |openouters| ==>
        openouters[j] == if j < i then list[j] else if j == i then o else list[j - 1];
    }

    /** Close the outers at or above a slot: each keeps, from now on in itself, the value it showed. */
    method CloseOuters(stackindex: int)
      requires Outers() && 0 <= top <= |stack| && vals >= 0
      modifies this`openouters, Open()
      ensures Outers()
      ensures forall o :: o in openouters <==> o in old(openouters) && o.idx < stackindex
      ensures forall o :: o in old(openouters) ==> Read(o) == old(Read(o))
      ensures forall o :: o in old(openouters) ==> o.valptr == if o.idx >= stackindex then OWN else old(o.valptr)
    {
      ghost var list := openouters;
      ghost var n := CloseFirst(stackindex);
      assert openouters == list[n..];
      assert forall k :: n <= k < |list| ==> list[k] == openouters[k - n];
      assert forall k :: 0 <= k < |list| ==> (list[k] in openouters <==> list[k].idx < stackindex);
    }

    /** The number of outers closed: the first ones of the list. */
    method CloseFirst(stackindex: int) returns (ghost n: nat)
      requires Outers() && 0 <= top <= |stack| && vals >= 0
      modifies this`openouters, Open()
      ensures n <= |old(openouters)| && openouters == old(openouters)[n..]
      ensures forall k :: 0 <= k < n ==>
        old(openouters)[k].valptr == OWN && old(openouters)[k].idx >= stackindex
          && old(openouters)[k].value == old(Read(openouters[k]))
      ensures forall k :: n <= k < |old(openouters)| ==>
        && old(openouters)[k].valptr == old(openouters[k].valptr)
        && old(openouters)[k].value == old(openouters[k].value)
        && old(openouters)[k].idx < stackindex
    {
      ghost var list := openouters;
      n := 0;
      while |openouters| > 0 && openouters[0].valptr >= vals + stackindex
        invariant 0 <= n <= |list| && openouters == list[n..]
        invariant forall k :: 0 <= k < n ==>
          list[k].valptr == OWN && list[k].idx >= stackindex && list[k].value == old(Read(list[k]))
        invariant forall k :: n <= k < |list| ==>
          list[k].valptr == old(list[k].valptr) && list[k].value == old(list[k].value)
        decreases |openouters|
      {
        var p := openouters[0];
        assert p == list[n] && p in old(Open());
        p.value := stack[p.valptr - vals];
        p.valptr := OWN;
        openouters := openouters[1..];
        n := n + 1;
      }
    }

    /** After the stack moved, point every open outer to its slot again. */
    method RelocateOuters()
      requires forall i, j :: 0 <= i < j < |openouters| ==> openouters[i] != openouters[j]
      modifies Open()
      ensures forall i :: 0 <= i < |openouters| ==> openouters[i].valptr == vals + openouters[i].idx
    {
      var i := 0;
      while i < |openouters|
        invariant 0 <= i <= |openouters|
        invariant forall j :: 0 <= j < i ==> openouters[j].valptr == vals + openouters[j].idx
      {
        openouters[i].valptr := vals + openouters[i].idx;
        i := i + 1;
      }
    }

    /** Set the top, and make room for the registers below it. Growing may put the value stack at another
        address. */
    method Reserve(newtop: int, newvals: int)
      requires vals >= 0 && newvals >= 0 && 0 <= newtop && Outers() && top <= |stack|
      requires forall o :: o in openouters ==> o.idx < newtop
      modifies this`vals, this`stack, this`top, Open()
      ensures Outers() && vals >= 0 && top == newtop && |stack| >= newtop + MIN_STACK_OVERHEAD
        && |stack| >= |old(stack)|
      ensures forall k :: 0 <= k < |old(stack)| ==> stack[k] == old(stack)[k]
      ensures forall o :: o in openouters ==> Read(o) == old(Read(o))
    {
      top := newtop;
      if newtop + MIN_STACK_OVERHEAD > |stack| {
        stack := stack + seq(newtop + MIN_STACK_OVERHEAD * 4 - |stack|, _ => Null);
        vals := newvals;
        RelocateOuters();
      }
    }

    /** Close the outers of a frame, and go back to a lower base and the caller's top. */
    method CloseTo(lastbase: int, newtop: int)
      requires Outers() && 0 <= top <= |stack| && vals >= 0 && lastbase <= newtop
      modifies this`openouters, this`top, Open()
      ensures Outers() && top == newtop
      ensures forall o :: o in openouters <==> o in old(openouters) && o.idx < lastbase
      ensures forall o :: o in old(openouters) ==> Read(o) == old(Read(o)) && (o.idx >= lastbase ==> o.valptr == OWN)
      ensures forall o :: o in old(openouters) ==> o.valptr == OWN || o.valptr - vals < newtop
    {
      CloseOuters(lastbase);
      top := newtop;
    }

    // --- frames

    /** A call: the callee's registers begin inside the caller's. */
    method EnterFrame(newbase: int, newtop: int, newvals: int)
      requires Valid() && stackbase <= newbase <= top && newbase <= newtop && newvals >= 0
      requires forall o :: o in openouters ==> o.idx < newtop
      modifies this, Open()
      ensures Valid() && stackbase == newbase && top == newtop && openouters == old(openouters) && etraps == old(etraps)
      ensures callsstack == old(callsstack)
        + [Frame(newbase - old(stackbase), old(top) - old(stackbase), 0, 1, null, false, 0)]
      ensures |stack| >= |old(stack)| && forall k :: 0 <= k < |old(stack)| ==> stack[k] == old(stack)[k]
      ensures forall o :: o in openouters ==> Read(o) == old(Read(o))
    {
      hide Framed, Base, Outers, Read;
      var f := Frame(newbase - stackbase, top - stackbase, 0, 1, null, false, 0);
      ghost var frames, t, room := callsstack, top, |stack| - MIN_STACK_OVERHEAD;
      callsstack := callsstack + [f];
      stackbase := newbase;
      Reserve(newtop, newvals);
      MoreRoom(frames, etraps, t, room, |stack| - MIN_STACK_OVERHEAD);
      EnterFramed(frames, etraps, t, |stack| - MIN_STACK_OVERHEAD, f, newtop);
    }

    /** A tail call reuses the frame; the compiler emits it only outside `try`, after closing the outers. */
    method EnterTailFrame(newtop: int, newvals: int)
      requires Valid() && callsstack != [] && Inner(callsstack).etraps == 0 && stackbase <= newtop && newvals >= 0
      requires forall o :: o in openouters ==> o.idx < stackbase
      modifies this, Open()
      ensures Valid() && stackbase == old(stackbase) && top == newtop && openouters == old(openouters)
        && etraps == old(etraps)
      ensures callsstack
        == old(callsstack)[|old(callsstack)| - 1 := Inner(old(callsstack)).(ncalls := Inner(old(callsstack)).ncalls
        + 1)]
      ensures |stack| >= |old(stack)| && forall k :: 0 <= k < |old(stack)| ==> stack[k] == old(stack)[k]
      ensures forall o :: o in openouters ==> Read(o) == old(Read(o))
    {
      hide Framed, Base, Outers, Read;
      var f := Inner(callsstack).(ncalls := Inner(callsstack).ncalls + 1);
      ghost var frames, t, room := callsstack, top, |stack| - MIN_STACK_OVERHEAD;
      callsstack := callsstack[|callsstack| - 1 := f];
      Reserve(newtop, newvals);
      MoreRoom(frames, etraps, t, room, |stack| - MIN_STACK_OVERHEAD);
      TailFramed(frames, etraps, t, newtop, |stack| - MIN_STACK_OVERHEAD, f);
    }

    /** A tail call: what is captured of the frame is closed before the arguments are moved over it, and the
        frame is reused. */
    method TailCall(args: nat, nargs: nat, newtop: int, newvals: int)
      requires Valid() && callsstack != [] && Inner(callsstack).etraps == 0 && stackbase <= newtop && newvals >= 0
      requires stackbase + args + nargs <= top
      modifies this, Open()
      ensures Valid() && stackbase == old(stackbase) && top == newtop && etraps == old(etraps)
      ensures callsstack
        == old(callsstack)[|old(callsstack)| - 1 := Inner(old(callsstack)).(ncalls := Inner(old(callsstack)).ncalls
        + 1)]
      ensures |stack| >= |old(stack)| && stack[..|old(stack)|] == Moved(old(stack), stackbase, args, nargs)
      ensures forall o :: o in openouters <==> o in old(openouters) && o.idx < old(stackbase)
      ensures forall o :: o in old(openouters) ==>
        Read(o) == old(Read(o)) && (o.idx >= old(stackbase) ==> o.valptr == OWN)
    {
      hide Framed, Base, Outers, Moved;
      ghost var outers := openouters;
      CloseOuters(stackbase);
      OpenBelow(outers);
      MoveArguments(args, nargs, outers);
      EnterTailFrame(newtop, newvals);
    }

    /** Where outers show their values, once those of the frame are closed. */
    lemma OpenBelow(outers: seq<Outer>)
      requires Outers()
      requires forall o :: o in outers ==> o.valptr == OWN || (o in openouters && o.idx < stackbase)
      ensures forall o :: o in outers ==> o.valptr == OWN || o.valptr - vals < stackbase
    {
    }

    method MoveArguments(args: nat, nargs: nat, ghost outers: seq<Outer>)
      requires 0 <= stackbase && stackbase + args + nargs <= |stack|
      requires forall o :: o in outers ==> o.valptr == OWN || o.valptr - vals < stackbase
      modifies this`stack
      ensures stack == Moved(old(stack), stackbase, args, nargs)
      ensures forall o :: o in outers ==> Read(o) == old(Read(o))
    {
      var i := 0;
      while i < nargs
        invariant 0 <= i <= nargs && stack == Moved(old(stack), stackbase, args, i)
      {
        MovedOn(old(stack), stackbase, args, i);
        stack := stack[stackbase + i := stack[stackbase + args + i]];
        i := i + 1;
      }
    }

    /** The innermost frame is the root of an activation: a throw goes no further. */
    method MarkRoot()
      requires Valid() && callsstack != []
      modifies this`callsstack
      ensures Valid() && callsstack == old(callsstack)[|old(callsstack)| - 1 := Inner(old(callsstack)).(root := true)]
    {
      hide Framed, Base, Outers;
      var f := Inner(callsstack).(root := true);
      RootFramed(callsstack, etraps, top, |stack| - MIN_STACK_OVERHEAD, f);
      callsstack := callsstack[|callsstack| - 1 := f];
    }

    /** The traps are those of the callers only: a frame's own are popped, or taken away, before it is left. */
    ghost predicate Leaving()
      reads this, openouters
    {
      && callsstack != [] && vals >= 0 && stackbase == Base(callsstack) && 0 <= stackbase <= top
      && top + MIN_STACK_OVERHEAD <= |stack| && Outers()
      && LeavesTo(callsstack, etraps, |stack| - MIN_STACK_OVERHEAD)
    }

    /** Back to the caller's base and top; variables of the frame that are still captured are closed. */
    method LeaveFrame()
      requires Leaving()
      modifies this, Open()
      ensures Valid() && callsstack == old(callsstack)[..|old(callsstack)| - 1] && etraps == old(etraps)
        && |stack| == |old(stack)| && vals == old(vals)
      ensures stackbase == old(stackbase) - Inner(old(callsstack)).prevstkbase
        && top == stackbase + Inner(old(callsstack)).prevtop
      ensures forall o :: o in openouters <==> o in old(openouters) && o.idx < old(stackbase)
      ensures forall o :: o in old(openouters) ==>
        Read(o) == old(Read(o)) && (o.idx >= old(stackbase) ==> o.valptr == OWN)
      ensures forall k :: 0 <= k < top ==> stack[k] == old(stack)[k]
      ensures forall k :: top <= k <= old(top) ==> stack[k] == Null
    {
      hide Framed, Base, LeavesTo, Read, Outers;
      LeavesWhere(callsstack, etraps, |stack| - MIN_STACK_OVERHEAD);
      var lasttop, lastbase := top, stackbase;
      var f := Inner(callsstack);
      ghost var outers := openouters;
      CloseTo(lastbase, stackbase - f.prevstkbase + f.prevtop);
      stackbase := stackbase - f.prevstkbase;
      callsstack := callsstack[..|callsstack| - 1];
      ClearSlots(lasttop, outers);
    }

    /** Null every slot from `lasttop` down to the top. */
    method ClearSlots(lasttop: int, ghost outers: seq<Outer>)
      requires 0 <= top && lasttop < |stack|
      modifies this`stack
      ensures |stack| == |old(stack)|
      ensures forall k :: 0 <= k < |stack| ==> stack[k] == if top <= k <= lasttop then Null else old(stack)[k]
      ensures forall o :: o in outers && (o.valptr == OWN || o.valptr - vals < top) ==> Read(o) == old(Read(o))
    {
      var last := lasttop;
      while last >= top
        invariant last <= lasttop && (last >= top - 1 || last == lasttop) && |stack| == |old(stack)|
        invariant forall k :: 0 <= k < |stack| ==>
          stack[k] == if top <= k && last < k <= lasttop then Null else old(stack)[k]
        decreases last - top
      {
        stack := stack[last := Null];
        last := last - 1;
      }
    }

    /** Leave a frame that holds no trap. */
    method Unwind(ghost frames: seq<Frame>, ghost lasttop: int)
      requires Valid() && callsstack != [] && Inner(callsstack).etraps == 0
      requires callsstack <= frames && top == TopOf(frames, lasttop, |callsstack| - 1)
      modifies this, Open()
      ensures Valid() && callsstack == old(callsstack)[..|old(callsstack)| - 1] && etraps == old(etraps)
        && |stack| == |old(stack)|
      ensures callsstack != [] ==> top == TopOf(frames, lasttop, |callsstack| - 1)
      ensures forall o :: o in openouters ==> o in old(openouters)
      ensures forall o :: o in old(openouters) ==> Read(o) == old(Read(o)) && (o in openouters || o.valptr == OWN)
    {
      hide Framed, Base;
      MayLeave(callsstack, etraps, top, |stack| - MIN_STACK_OVERHEAD);
      LeavesWhere(callsstack, etraps, |stack| - MIN_STACK_OVERHEAD);
      ghost var n := |callsstack| - 1;
      assert callsstack[n] == frames[n] && callsstack[..n] == frames[..n];
      LeaveFrame();
    }

    /** Leave a frame an exception passes through; its generator, if it runs one, is dead. */
    method PassFrame(ghost frames: seq<Frame>, ghost lasttop: int, ghost outers: seq<Outer>) returns (mustbreak: bool)
      requires forall o :: o in outers ==> o in openouters || o.valptr == OWN
      requires Valid() && callsstack != [] && Inner(callsstack).etraps == 0
      requires callsstack <= frames && top == TopOf(frames, lasttop, |callsstack| - 1)
      modifies this, Open(), Generators([Inner(callsstack)])
      ensures Valid() && callsstack == old(callsstack)[..|old(callsstack)| - 1] && etraps == old(etraps)
        && |stack| == |old(stack)|
      ensures callsstack != [] ==> top == TopOf(frames, lasttop, |callsstack| - 1)
      ensures forall o :: o in openouters ==> o in old(openouters)
      ensures forall o :: o in outers ==> Read(o) == old(Read(o)) && (o in openouters || o.valptr == OWN)
      ensures mustbreak == Inner(old(callsstack)).root
      ensures Inner(old(callsstack)).gen != null ==>
        Inner(old(callsstack)).gen.state == Dead && Inner(old(callsstack)).gen.Valid()
    {
      hide Framed, Base, TopOf;
      var gen := Inner(callsstack).gen;
      if gen != null {
        assert Inner(callsstack) in [Inner(callsstack)];
        gen.Kill();
      }
      mustbreak := Inner(callsstack).root;
      Unwind(frames, lasttop);
    }

    /** Resume at the innermost trap. */
    method Catch(currerror: Val, lasttop: int, ghost outers: seq<Outer>)
      requires Valid() && callsstack != [] && Inner(callsstack).etraps > 0 && lasttop < |stack|
      requires forall o :: o in outers ==> o in openouters || o.valptr == OWN
      modifies this`callsstack, this`etraps, this`stack, this`top, this`stackbase
      ensures Valid() && |old(etraps)| > 0 && etraps == old(etraps)[..|old(etraps)| - 1]
      ensures var t := old(etraps)[|old(etraps)| - 1]; var n := |old(callsstack)| - 1;
        && callsstack == old(callsstack)[n := old(callsstack)[n].(etraps := old(callsstack)[n].etraps - 1, ip := t.ip)]
        && stackbase == old(stackbase) && top == old(top) && 0 <= t.extarget < top - stackbase
        && stack[stackbase + t.extarget] == currerror
        && |stack| == |old(stack)|
        && (forall k :: 0 <= k < top && k != stackbase + t.extarget ==> stack[k] == old(stack)[k])
        && forall o :: o in outers && (o.valptr == OWN || o.idx != stackbase + t.extarget) ==> Read(o) == old(Read(o))
    {
      hide Framed, Base, Outers, Read, AllBelong, Segment;
      ghost var room := |stack| - MIN_STACK_OVERHEAD;
      PopFramed(callsstack, etraps, top, room);
      var et := etraps[|etraps| - 1];
      var f := Inner(callsstack);
      IpFramed(callsstack, etraps[..|etraps| - 1], top, room, f.(etraps := f.etraps - 1), et.ip);
      top := et.stacksize;
      stackbase := et.stackbase;
      etraps := etraps[..|etraps| - 1];
      callsstack := callsstack[|callsstack| - 1 := f.(etraps := f.etraps - 1, ip := et.ip)];
      StoreError(stackbase + et.extarget, currerror, lasttop, outers);
    }

    /** The exception goes to its register, and what lies above the top is forgotten. */
    method StoreError(slot: int, currerror: Val, lasttop: int, ghost outers: seq<Outer>)
      requires Outers() && 0 <= slot < top <= |stack| && lasttop < |stack| && vals >= 0
      requires forall o :: o in outers ==> o in openouters || o.valptr == OWN
      modifies this`stack
      ensures |stack| == |old(stack)| && stack[slot] == currerror && forall k :: 0 <= k < top && k != slot ==>
        stack[k] == old(stack)[k]
      ensures forall o :: o in outers && (o.valptr == OWN || o.idx != slot) ==> Read(o) == old(Read(o))
    {
      stack := stack[slot := currerror];
      ClearSlots(lasttop, outers);
    }

    lemma IpFramed(frames: seq<Frame>, traps: seq<Trap>, t: int, room: int, f: Frame, ip: int)
      requires frames != [] && Framed(frames[|frames| - 1 := f], traps, t, room)
      ensures Framed(frames[|frames| - 1 := f.(ip := ip)], traps, t, room)
      ensures Base(frames[|frames| - 1 := f.(ip := ip)]) == Base(frames[|frames| - 1 := f])
    {
      var a, b := frames[|frames| - 1 := f], frames[|frames| - 1 := f.(ip := ip)];
      assert a[..|a| - 1] == b[..|b| - 1];
    }

    // --- traps

    method PushTrap(ip: int, extarget: int)
      requires Valid() && callsstack != [] && 0 <= extarget < top - stackbase
      modifies this`etraps, this`callsstack
      ensures Valid() && etraps == old(etraps) + [Trap(top, stackbase, ip, extarget)]
      ensures callsstack
        == old(callsstack)[|old(callsstack)| - 1 := Inner(old(callsstack)).(etraps := Inner(old(callsstack)).etraps
        + 1)]
    {
      hide Framed;
      var t := Trap(top, stackbase, ip, extarget);
      PushFramed(callsstack, etraps, top, |stack| - MIN_STACK_OVERHEAD, t);
      etraps := etraps + [t];
      callsstack := callsstack[|callsstack| - 1 := Inner(callsstack).(etraps := Inner(callsstack).etraps + 1)];
    }

    method PopTrap(n: nat)
      requires Valid() && callsstack != [] && n <= Inner(callsstack).etraps
      modifies this`etraps, this`callsstack
      ensures Valid() && n <= |old(etraps)| && etraps == old(etraps)[..|old(etraps)| - n]
      ensures callsstack
        == old(callsstack)[|old(callsstack)| - 1 :=
          Inner(old(callsstack)).(etraps := Inner(old(callsstack)).etraps - n)]
    {
      hide Framed, Base, AllBelong, Segment, Outers, Read, Belongs;
      var i := 0;
      while i < n
        invariant 0 <= i <= n && Valid() && callsstack != [] && i <= |old(etraps)|
        invariant etraps == old(etraps)[..|old(etraps)| - i]
        invariant callsstack
          == old(callsstack)[|old(callsstack)| - 1 :=
            Inner(old(callsstack)).(etraps := Inner(old(callsstack)).etraps - i)]
      {
        PopFramed(callsstack, etraps, top, |stack| - MIN_STACK_OVERHEAD);
        etraps := etraps[..|etraps| - 1];
        callsstack := callsstack[|callsstack| - 1 := Inner(callsstack).(etraps := Inner(callsstack).etraps - 1)];
        i := i + 1;
      }
    }

    /** An exception unwinds to the innermost frame of this activation that has a trap, and resumes there with
        that frame's own base and top; frames passed on the way are left, and their generators are dead. */
    method Throw(currerror: Val) returns (caught: bool)
      requires Valid()
      modifies this, Open(), Generators(callsstack[Staying(callsstack)..])
      ensures Valid() && (caught <==> Catcher(old(callsstack)) >= 0)
      ensures caught ==> var c := Catcher(old(callsstack));
        && |old(etraps)| > 0 && etraps == old(etraps)[..|old(etraps)| - 1]
        && callsstack
        == old(callsstack)[..c
        + 1][c := old(callsstack)[c].(etraps := old(callsstack)[c].etraps - 1,
        ip := old(etraps)[|old(etraps)| - 1].ip)]
        && stackbase == Base(old(callsstack)[..c + 1]) && top == TopOf(old(callsstack), old(top), c)
        && 0 <= old(etraps)[|old(etraps)| - 1].extarget < top - stackbase
        && stack[stackbase + old(etraps)[|old(etraps)| - 1].extarget] == currerror
      ensures !caught ==> callsstack == old(callsstack)[..Unwound(old(callsstack))] && etraps == old(etraps)
      ensures forall o :: o in openouters ==> o in old(openouters)
      ensures forall o :: o in old(openouters) ==> o in openouters || o.valptr == OWN
      ensures forall o ::
        o in old(openouters)
        && !(caught && o.valptr != OWN && o.idx == stackbase + old(etraps)[|old(etraps)| - 1].extarget) ==>
        Read(o) == old(Read(o))
      ensures forall k :: |callsstack| <= k < |old(callsstack)| && old(callsstack)[k].gen != null ==>
        old(callsstack)[k].gen.state == Dead && old(callsstack)[k].gen.Valid()
    {
      hide Framed, Base, Belongs, AllBelong, Segment, Outers, Read, TopOf, Catcher, Unwound;
      NoCatcher(callsstack, top);
      var lasttop := top;
      ghost var outers, frames := openouters, callsstack;
      while callsstack != []
        invariant Valid() && callsstack <= frames && etraps == old(etraps) && |stack| == |old(stack)|
        invariant Catcher(callsstack) == Catcher(frames) && Unwound(callsstack) == Unwound(frames)
        invariant callsstack != [] ==> top == TopOf(frames, old(top), |callsstack| - 1)
        invariant lasttop < |stack|
        invariant forall o :: o in openouters ==> o in outers
        invariant forall o :: o in outers ==> Read(o) == old(Read(o)) && (o in openouters || o.valptr == OWN)
        invariant forall k :: |callsstack| <= k < |frames| && frames[k].gen != null ==>
          frames[k].gen.state == Dead && frames[k].gen.Valid()
        decreases |callsstack|
      {
        assert callsstack == frames[..|callsstack|];
        CatcherStep(callsstack);
        if Inner(callsstack).etraps > 0 {
          Catch(currerror, lasttop, outers);
          return true;
        }
        assert Open() <= old(Open());
        ghost var f := Inner(callsstack);
        PassedOn(frames, |callsstack|);
        var mustbreak := PassFrame(frames, old(top), outers);
        if mustbreak {
          break;
        }
      }
      return false;
    }

    // --- generators

    /** Suspend the running frame: its registers and traps go to the generator, and the frame is left. A
        generator that is suspended or dead refuses, and stays what it was. The registers are cleared; the one
        that is yielded, if any, gets its value back before the frame's outers are closed. */
    method Yield(g: Generator, target: int, yielded: int) returns (ok: bool)
      requires Valid() && g.Valid() && callsstack != [] && 1 <= target <= top - stackbase
      requires yielded != NOTHING ==> 0 <= yielded < top - stackbase
      modifies this, g, Open()
      ensures Valid() && g.Valid() && (ok <==> old(g.state) == Running)
      ensures !ok ==> g.state == old(g.state) && callsstack == old(callsstack) && stack == old(stack)
      ensures Open() <= old(Open()) && forall o :: o in old(openouters) ==> o in openouters || o.valptr == OWN
      ensures ok ==> g.state == Suspended && |g.stack| == old(top) - old(stackbase)
      ensures ok ==> forall n :: 0 <= n < target ==> g.stack[n] == old(stack)[old(stackbase) + n]
      ensures ok ==>
        g.ci == Inner(old(callsstack)).(gen := null) && callsstack == old(callsstack)[..|old(callsstack)| - 1]
      ensures ok ==> g.ci.etraps <= |old(etraps)| && etraps == old(etraps)[..|old(etraps)| - g.ci.etraps]
      ensures ok ==> g.etraps == Suspend(Segment(old(callsstack), old(etraps)), old(stackbase))
      ensures ok ==> stackbase == old(stackbase) - g.ci.prevstkbase && top == stackbase + g.ci.prevtop
      ensures ok ==> forall o :: o in old(openouters) ==>
        Read(o) == if o.idx < old(stackbase) || Yielded(yielded, old(stackbase), o.idx) then old(Read(o)) else Null
      ensures ok ==> forall o :: o in old(openouters) ==>
        (Read(o) == old(Read(o)) <==>
          o.idx < old(stackbase) || old(Read(o)) == Null || Yielded(yielded, old(stackbase), o.idx))
    {
      hide Framed, Base, AllBelong, Belongs, Suspend, Read, LeavesTo, Outers, Segment;
      if g.state != Running {
        return false;
      }
      ghost var outers := openouters;
      forall o | o in openouters ensures 0 <= o.idx < |stack| && Read(o) == stack[o.idx] {
        ShowsSlot(o);
      }
      var value := if yielded != NOTHING then stack[stackbase + yielded] else Null;
      StoreFrame(g, target);
      if yielded != NOTHING {
        PutBack(stackbase + yielded, value, outers);
      }
      LeaveFrame();
      return true;
    }

    method PutBack(slot: int, value: Val, ghost outers: seq<Outer>)
      requires Leaving() && stackbase <= slot < top && outers == openouters
      modifies this`stack
      ensures Leaving() && stack == old(stack)[slot := value]
      ensures forall o :: o in outers ==> Read(o) == if o.idx == slot then value else old(Read(o))
    {
      hide Framed, Base, LeavesTo;
      stack := stack[slot := value];
    }

    lemma ShowsSlot(o: Outer)
      requires Valid() && o in openouters
      ensures 0 <= o.idx < top <= |stack| && Read(o) == stack[o.idx]
    {
      hide Framed, Base;
    }

    /** What the generator keeps of the frame. */
    method StoreFrame(g: Generator, target: int)
      requires Valid() && g.Valid() && g.state == Running && callsstack != [] && 1 <= target <= top - stackbase
      modifies this`stack, this`etraps, g
      ensures Leaving() && g.Valid() && g.state == Suspended && |g.stack| == top - stackbase && |stack| == |old(stack)|
      ensures forall n :: 0 <= n < target ==> g.stack[n] == old(stack)[stackbase + n]
      ensures g.ci == Inner(callsstack).(gen := null) && g.ci.etraps <= |old(etraps)|
        && etraps == old(etraps)[..|old(etraps)| - g.ci.etraps]
      ensures g.etraps == Suspend(Segment(callsstack, old(etraps)), stackbase)
      ensures forall o :: o in openouters ==> Read(o) == if o.idx < stackbase then old(Read(o)) else Null
      ensures LeavesTo(callsstack, etraps, |stack| - MIN_STACK_OVERHEAD)
    {
      hide Framed, Base, AllBelong, Belongs, Suspend, Read, LeavesTo, Outers;
      ghost var room := |stack| - MIN_STACK_OVERHEAD;
      InnerFramed(callsstack, etraps, top, room);
      TrapsTaken(callsstack, etraps, top, room);
      SuspendedAt(Segment(callsstack, etraps), stackbase, top);
      SaveRegisters(g, target);
      ClearRegisters();
      g.ci := Inner(callsstack).(gen := null);
      TakeTraps(g, g.ci.etraps);
      g.state := Suspended;
    }

    method SaveRegisters(g: Generator, target: int)
      requires 0 <= stackbase && top <= |stack| && 1 <= target <= top - stackbase
      modifies g`stack
      ensures |g.stack| == top - stackbase && forall n :: 0 <= n < target ==> g.stack[n] == stack[stackbase + n]
    {
      var regs := Resized(g.stack, top - stackbase)[0 := stack[stackbase]];
      var n := 1;
      while n < target
        invariant 1 <= n <= target && |regs| == top - stackbase
        invariant forall j :: 0 <= j < n ==> regs[j] == stack[stackbase + j]
        modifies {}
      {
        regs := regs[n := stack[stackbase + n]];
        n := n + 1;
      }
      g.stack := regs;
    }

    /** The frame's registers become null; an outer that still points at one of them now shows null. */
    method ClearRegisters()
      requires 0 <= stackbase <= top <= |stack| && vals >= 0 && Outers()
      modifies this`stack
      ensures |stack| == |old(stack)|
      ensures forall o :: o in openouters ==> Read(o) == if o.idx < stackbase then old(Read(o)) else Null
    {
      var size := top - stackbase;
      var j := 0;
      while j < size
        invariant 0 <= j <= size && |stack| == |old(stack)|
        invariant forall k :: 0 <= k < |stack| ==>
          stack[k] == if stackbase <= k < stackbase + j then Null else old(stack)[k]
      {
        stack := stack[stackbase + j := Null];
        j := j + 1;
      }
    }

    /** Move the innermost frame's traps to the generator, relative to the frame. */
    method TakeTraps(g: Generator, n: nat)
      requires n <= |etraps| && g.etraps == []
      modifies this`etraps, g`etraps
      ensures etraps == old(etraps)[..|old(etraps)| - n]
      ensures g.etraps == Suspend(old(etraps)[|old(etraps)| - n..], stackbase)
    {
      hide Suspend;
      ghost var first := |etraps| - n;
      var traps, saved := etraps, [];
      var i := 0;
      while i < n
        invariant 0 <= i <= n && traps == etraps[..|etraps| - i] && |saved| == i
        invariant forall k :: 0 <= k < i ==> saved[k] == Relative(etraps[|etraps| - 1 - k], stackbase)
        modifies {}
      {
        var et := traps[|traps| - 1];
        saved := saved + [et.(stackbase := et.stackbase - stackbase, stacksize := et.stacksize - stackbase)];
        traps := traps[..|traps| - 1];
        i := i + 1;
      }
      SuspendIs(etraps[first..], stackbase, saved);
      etraps, g.etraps := traps, saved;
    }

    /** Put the generator's traps on top, relative to the new base. */
    method GiveTraps(g: Generator, n: nat)
      requires n == |g.etraps|
      modifies this`etraps, g`etraps
      ensures g.etraps == [] && etraps == old(etraps) + Restore(old(g.etraps), stackbase)
    {
      hide Restore;
      ghost var all := g.etraps;
      var traps, saved := etraps, g.etraps;
      ghost var given: seq<Trap> := [];
      var i := 0;
      while i < n
        invariant 0 <= i <= n && saved == all[..n - i] && |given| == i && traps == etraps + given
        invariant forall k :: 0 <= k < i ==> given[k] == Absolute(all[n - 1 - k], stackbase)
        modifies {}
      {
        var et := saved[|saved| - 1];
        var moved := et.(stackbase := et.stackbase + stackbase, stacksize := et.stacksize + stackbase);
        assert traps + [moved] == etraps + (given + [moved]);
        given := given + [moved];
        traps := traps + [moved];
        saved := saved[..|saved| - 1];
        i := i + 1;
      }
      RestoreIs(all, stackbase, given);
      etraps, g.etraps := traps, saved;
    }

    /** Copy the registers back, and forget them in the generator, except for `this`. */
    method RestoreRegisters(g: Generator, ghost outers: seq<Outer>)
      requires 0 <= stackbase && stackbase + |g.stack| <= |stack| && |g.stack| >= 1
      modifies this`stack, g`stack
      ensures |stack| == |old(stack)| && |g.stack| == |old(g.stack)|
      ensures forall k :: 0 <= k < |stack| ==>
        stack[k] == if stackbase <= k < stackbase + |g.stack| then old(g.stack)[k - stackbase] else old(stack)[k]
      ensures forall o :: o in outers && (o.valptr == OWN || o.valptr - vals < stackbase) ==> Read(o) == old(Read(o))
    {
      var size := |g.stack|;
      stack := stack[stackbase := g.stack[0]];
      var n := 1;
      while n < size
        invariant 1 <= n <= size && |stack| == |old(stack)| && |g.stack| == size
        invariant forall k :: 0 <= k < |stack| ==>
          stack[k] == if stackbase <= k < stackbase + n then old(g.stack)[k - stackbase] else old(stack)[k]
        invariant forall k :: n <= k < size ==> g.stack[k] == old(g.stack)[k]
      {
        stack := stack[stackbase + n := g.stack[n]];
        g.stack := g.stack[n := Null];
        n := n + 1;
      }
    }

    /** Run a suspended generator again, in a new frame on top of the stack. A running or dead one refuses. */
    method Resume(g: Generator, newvals: int) returns (ok: bool)
      requires Valid() && g.Valid() && newvals >= 0
      modifies this, g, Open()
      ensures Valid() && g.Valid() && (ok <==> old(g.state) == Suspended)
      ensures !ok ==> g.state == old(g.state) && callsstack == old(callsstack) && stack == old(stack)
      ensures ok ==> g.state == Running && stackbase == old(top) && top == old(top) + |old(g.stack)|
      ensures ok ==> forall n :: 0 <= n < |old(g.stack)| ==> stack[stackbase + n] == old(g.stack)[n]
      ensures ok ==> forall k :: 0 <= k < old(top) ==> stack[k] == old(stack)[k]
      ensures ok ==> etraps == old(etraps) + Restore(old(g.etraps), stackbase)
      ensures ok ==>
        callsstack == old(callsstack)
        + [Frame(old(top) - old(stackbase), old(top) - old(stackbase), old(g.ci.etraps), old(g.ci.ncalls), g,
        old(g.ci.root), old(g.ci.ip))]
      ensures openouters == old(openouters) && (ok ==> forall o :: o in openouters ==> Read(o) == old(Read(o)))
    {
      hide Framed, Base, AllBelong, Belongs, Restore;
      if g.state != Suspended {
        return false;
      }
      ghost var frames, traps, saved := callsstack, etraps, g.etraps;
      var size, t, base := |g.stack|, top, stackbase;
      EnterFrame(top, top + size, newvals);
      var f := Frame(t - base, t - base, g.ci.etraps, g.ci.ncalls, g, g.ci.root, g.ci.ip);
      callsstack := callsstack[|callsstack| - 1 := f];
      assert callsstack == frames + [f];
      InnerFramed(frames + [Frame(t - base, t - base, 0, 1, null, false, 0)], traps, top, |stack| - MIN_STACK_OVERHEAD);
      GiveTraps(g, f.etraps);
      ghost var outers := openouters;
      RestoreRegisters(g, outers);
      g.state := Running;
      Callers(frames, Frame(t - base, t - base, 0, 1, null, false, 0), traps);
      ResumeFramed(frames, traps, t, |stack| - MIN_STACK_OVERHEAD, f, saved, size);
      return true;
    }
  }

  /** No register is put back: so when a generator is started. A `yield` without a value names register 0. */
  const NOTHING := 0xFF

  predicate Yielded(yielded: int, stackbase: int, slot: int) {
    yielded != NOTHING && slot == stackbase + yielded
  }

  /** Registers moved down to the beginning of a frame. */
  function Moved(s: seq<Val>, base: nat, args: nat, n: nat): (r: seq<Val>)
    requires base + args + n <= |s|
    ensures |r| == |s| && forall k :: 0 <= k < |s| && !(base <= k < base + n) ==> r[k] == s[k]
    ensures r[base..base + n] == s[base + args..base + args + n]
  {
    s[..base] + s[base + args..base + args + n] + s[base + n..]
  }

  lemma MovedOn(s: seq<Val>, base: nat, args: nat, n: nat)
    requires base + args + n < |s|
    ensures Moved(s, base, args, n)[base + n := Moved(s, base, args, n)[base + args + n]] == Moved(s, base, args, n + 1)
  {
    var r, m := Moved(s, base, args, n), s[base + args..base + args + n];
    assert r[base + args + n] == s[base + args + n];
    assert s[base + args..base + args + n + 1] == m + [s[base + args + n]];
  }

  /** The vector after a change of its size. */
  function Resized(s: seq<Val>, size: nat): (r: seq<Val>)
    ensures |r| == size && forall k :: 0 <= k < size ==> r[k] == if k < |s| then s[k] else Null
  {
    if |s| >= size then s[..size] else s + seq(size - |s|, _ => Null)
  }

  function Relative(t: Trap, base: int): Trap {
    t.(stackbase := t.stackbase - base, stacksize := t.stacksize - base)
  }

  function Absolute(t: Trap, base: int): Trap {
    t.(stackbase := t.stackbase + base, stacksize := t.stacksize + base)
  }

  /** Popping one by one reverses. */
  lemma {:induction false} SuspendIs(traps: seq<Trap>, base: int, saved: seq<Trap>)
    requires |saved| == |traps| && forall k :: 0 <= k < |traps| ==> saved[k] == Relative(traps[|traps| - 1 - k], base)
    ensures saved == Suspend(traps, base)
    decreases |traps|
  {
    if traps != [] {
      SuspendIs(traps[..|traps| - 1], base, saved[1..]);
      assert saved == [saved[0]] + saved[1..];
    }
  }

  lemma {:induction false} RestoreIs(saved: seq<Trap>, base: int, traps: seq<Trap>)
    requires |saved| == |traps| && forall k :: 0 <= k < |saved| ==> traps[k] == Absolute(saved[|saved| - 1 - k], base)
    ensures traps == Restore(saved, base)
    decreases |saved|
  {
    if saved != [] {
      RestoreIs(saved[..|saved| - 1], base, traps[1..]);
      assert traps == [traps[0]] + traps[1..];
    }
  }

  lemma NoCatcher(frames: seq<Frame>, top: int)
    ensures Catcher([]) == -1 && Unwound([]) == 0 && (frames != [] ==> TopOf(frames, top, |frames| - 1) == top)
  {
  }

  lemma CatcherStep(frames: seq<Frame>)
    requires frames != []
    ensures var callers := frames[..|frames| - 1];
      if Inner(frames).etraps > 0 then Catcher(frames) == |frames| - 1
      else if Inner(frames).root then Catcher(frames) == -1 && Unwound(frames) == |frames| - 1
      else Catcher(frames) == Catcher(callers) && Unwound(frames) == Unwound(callers)
  {
  }

  lemma Callers(frames: seq<Frame>, f: Frame, traps: seq<Trap>)
    ensures (frames + [f])[..|frames|] == frames && traps[..|traps|] == traps
  {
  }

  /** Every generator running in some frame. */
  ghost function Generators(frames: seq<Frame>): set<Generator> {
    set f | f in frames && f.gen != null :: f.gen
  }

  /** How many frames a throw leaves on the call stack. */
  function Staying(frames: seq<Frame>): (n: nat)
    ensures n <= |frames|
  {
    if Catcher(frames) >= 0 then Catcher(frames) + 1 else Unwound(frames)
  }

  /** A frame without traps is left. */
  lemma PassedOn(frames: seq<Frame>, n: nat)
    requires 0 < n <= |frames| && frames[n - 1].etraps == 0
    requires Catcher(frames[..n]) == Catcher(frames) && Unwound(frames[..n]) == Unwound(frames)
    ensures Staying(frames) < n && Generators([frames[n - 1]]) <= Generators(frames[Staying(frames)..])
  {
    var a := frames[..n];
    assert Inner(a) == frames[n - 1] && a[..n - 1] == frames[..n - 1];
    assert frames[n - 1] == frames[Staying(frames)..][n - 1 - Staying(frames)];
  }

  /** Where leaving the innermost frame leads is a proper place to be. */
  ghost predicate LeavesTo(frames: seq<Frame>, traps: seq<Trap>, room: int)
    requires frames != []
  {
    var callers := frames[..|frames| - 1];
    && 0 <= Inner(frames).prevstkbase <= Inner(frames).prevtop && Base(callers) >= 0
    && Framed(callers, traps, Base(callers) + Inner(frames).prevtop, room)
  }

  lemma LeavesWhere(frames: seq<Frame>, traps: seq<Trap>, room: int)
    requires frames != [] && LeavesTo(frames, traps, room)
    ensures var callers := frames[..|frames| - 1]; var f := Inner(frames);
      && Base(frames) == Base(callers) + f.prevstkbase && Base(callers) + f.prevtop <= room
      && 0 <= f.prevstkbase <= f.prevtop && Base(callers) >= 0
      && Framed(callers, traps, Base(callers) + f.prevtop, room)
  {
  }

  lemma TrapsTaken(frames: seq<Frame>, traps: seq<Trap>, top: int, room: int)
    requires Framed(frames, traps, top, room) && frames != []
    ensures Inner(frames).etraps <= |traps| && LeavesTo(frames, traps[..|traps| - Inner(frames).etraps], room)
  {
    InnerFramed(frames, traps, top, room);
  }

  lemma MayLeave(frames: seq<Frame>, traps: seq<Trap>, top: int, room: int)
    requires Framed(frames, traps, top, room) && frames != [] && Inner(frames).etraps == 0
    ensures LeavesTo(frames, traps, room)
  {
    InnerFramed(frames, traps, top, room);
    assert traps[..|traps|] == traps;
  }
}
