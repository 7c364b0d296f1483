/** Running code that is still being emitted. The last instruction of an `FState` may yet be rewritten, so
    its effect is kept pending: `Arrive` says what running the final code up to everything that can no
    longer change, and then the pending instruction, comes to. */
module Simulation {
  import opened Bytecode
  import opened FuncState
  import opened Source
  import opened Peephole

  /** Opcodes that AddInstruction or DiscardTarget may rewrite. */
  predicate Rewritable(op: Op) {
    MoveFuses(op) || op in {CMP, MOVE, LOADNULLS, SET, CALL}
  }

  predicate Open(fs: FState) {
    fs.opt && |fs.code| > 0 && Rewritable(Last(fs.code).op)
  }

  /** Instructions before the frontier are never rewritten (though a jump may be patched). */
  function Frontier(fs: FState): nat {
    if Open(fs) then |fs.code| - 1 else |fs.code|
  }

  function Pending(cx: Context, fs: FState, st: State): Outcome {
    if Open(fs) then Effect(cx, Last(fs.code), st) else Ok(st)
  }

  ghost predicate ArriveVia(cx: Context, fs: FState, c0: Conf, o: Outcome, st: State) {
    Reach(cx, c0, At(Frontier(fs), st)) && Pending(cx, fs, st) == o
  }

  ghost predicate Arrive(cx: Context, fs: FState, c0: Conf, o: Outcome) {
    (o.Raise? && Reach(cx, c0, Raised(o.w))) || (exists st :: ArriveVia(cx, fs, c0, o, st))
  }

  /** The final code and literals agree with those of `fs` from `lo` to the frontier. */
  ghost predicate Agree(cx: Context, fs: FState, lo: nat) {
    && Frontier(fs) <= |cx.code|
    && fs.lits <= cx.lits
    && forall j :: lo <= j < Frontier(fs) ==> cx.code[j] == fs.code[j]
  }

  lemma RunPending(cx: Context, fs: FState, c0: Conf, o: Outcome)
    requires Arrive(cx, fs, c0, o)
    requires Open(fs) ==> Frontier(fs) < |cx.code| && cx.code[Frontier(fs)] == Last(fs.code)
    ensures o.Raise? ==> Reach(cx, c0, Raised(o.w))
    ensures o.Ok? ==> Reach(cx, c0, At(|fs.code|, o.st))
  {
    if o.Raise? && Reach(cx, c0, Raised(o.w)) {
    } else {
      var st :| ArriveVia(cx, fs, c0, o, st);
      if Open(fs) {
        var c := At(Frontier(fs), st);
        ReachStep(cx, c);
        ReachTrans(cx, c0, c, Step(cx, c), 0, 1);
        ReachWeaken(cx, c0, Step(cx, c), 1, 0);
      }
    }
  }

  /** Nothing is pending: being at the end is arriving. */
  lemma ArriveClosed(cx: Context, fs: FState, c0: Conf, st: State)
    requires !Open(fs) && Reach(cx, c0, At(|fs.code|, st))
    ensures Arrive(cx, fs, c0, Ok(st))
  {
    assert ArriveVia(cx, fs, c0, Ok(st), st);
  }

  // --- the register a merge may elide must be dead

  function Victim(i: Instr): int {
    match i.op
    case GET => i.a2
    case PREPCALL => i.a1
    case APPENDARRAY => i.a1
    case EQ => i.a1
    case NE => i.a1
    case MOVE => i.a1
    case _ => -1
  }

  function Other(i: Instr): int {
    match i.op
    case GET => i.a1
    case PREPCALL => i.a2
    case APPENDARRAY => i.a0
    case EQ => i.a2
    case NE => i.a2
    case _ => -1
  }

  /** `i` reads as its elidable operand a local variable, or a register at or above `n` that it does not
      read twice; and it has the shape in which the compiler emits it. */
  predicate Dead(i: Instr, nl: nat, n: nat) {
    && (0 <= Victim(i) < nl || Victim(i) == -1 || (Victim(i) >= n && Victim(i) != Other(i)))
    && (i.op in {EQ, NE} ==> i.a3 == 0)
    && (i.op == APPENDARRAY ==> i.a2 == AAT_STACK)
    && (i.op == LOADNULLS ==> i.a1 == 1)
    && RegisterOperand(i)
    && i.a0 >= 0
  }

  /** The first `nl` registers are the local variables. */
  predicate Shape(fs: FState, nl: nat) {
    && 0 < nl <= |fs.vlocals| <= fs.stacksize
    && forall r :: 0 <= r < |fs.vlocals| ==> (fs.vlocals[r].Named? <==> r < nl)
  }

  /** A pending result is never pending into a local variable. */
  predicate DestSafe(fs: FState, nl: nat) {
    Open(fs) ==>
      var pi := Last(fs.code);
      && (MoveFuses(pi.op) || pi.op in {CMP, SET, CALL} ==> pi.a0 >= nl)
      && (pi.op == LOADNULLS ==> pi.a1 >= 0)
      && (pi.op == CMP ==> 0 <= pi.a1 < 0xFF)
  }

  predicate LastIsCmp(fs: FState) {
    Open(fs) && Last(fs.code).op == CMP
  }

  /** `fs'` continues `fs`: what could no longer change is still there. */
  predicate Extends(fs: FState, fs': FState) {
    Frontier(fs) <= Frontier(fs') && forall j :: 0 <= j < Frontier(fs) ==> fs'.code[j] == fs.code[j]
  }

  lemma ExtendsTrans(a: FState, b: FState, c: FState)
    requires Extends(a, b) && Extends(b, c)
    ensures Extends(a, c)
  {
  }

  lemma FuseRewrites(pi: Instr, i: Instr, local: bool)
    requires Fuse(pi, i, local).Merge?
    ensures MoveFuses(pi.op) || pi.op in {CMP, MOVE, LOADNULLS}
    ensures Straight(pi.op)
  {
  }

  lemma AddExtends(fs: FState, i: Instr)
    ensures Extends(fs, Add(fs, i))
  {
    if FuseLast(fs, i).Merge? {
      FuseRewrites(Last(fs.code), i, IsLocal(fs.vlocals, Last(fs.code).a0));
    }
  }

  lemma AddDest(fs: FState, i: Instr, nl: nat)
    requires DestSafe(fs, nl)
    requires MoveFuses(i.op) || i.op in {CMP, SET, CALL} ==> nl <= i.a0 <= NO_TARGET
    requires i.op == LOADNULLS ==> i.a1 >= 0
    requires i.op == CMP ==> 0 <= i.a1 < 0xFF
    ensures DestSafe(Add(fs, i), nl)
    ensures LastIsCmp(Add(fs, i)) ==> i.op == CMP
  {
  }

  /** Two outcomes that agree on the first `n` registers and on those `i` writes. */
  ghost predicate Below(a: Outcome, b: Outcome, i: Instr, n: nat) {
    match (a, b)
    case (Raise(v), Raise(w)) => v == w
    case (Ok(s), Ok(t)) => s.w == t.w && forall r :: 0 <= r < n || Writes(i, r) ==> Rd(s.regs, r) == Rd(t.regs, r)
    case _ => false
  }

  lemma TrimEffect(cx: Context, i: Instr, st: State)
    requires Straight(i.op)
    ensures Near(Effect(cx, Trim(i), st), Effect(cx, i, st), i, -1)
  {
  }

  /** Adding a straight-line instruction runs it, merged or not. */
  lemma AddArrive(cx: Context, fs: FState, i: Instr, c0: Conf, o: Outcome, nl: nat, n: nat) returns (o': Outcome)
    requires Straight(i.op) && Dead(i, nl, n) && Shape(fs, nl) && DestSafe(fs, nl)
    requires Agree(cx, Add(fs, i), Frontier(fs)) && Arrive(cx, fs, c0, o)
    ensures Arrive(cx, Add(fs, i), c0, o')
    ensures o.Raise? ==> o' == o
    ensures o.Ok? ==> Below(o', Effect(cx, i, o.st), i, n)
  {
    hide Effect, Writes;
    var fs' := Add(fs, i);
    if FuseLast(fs, i).Merge? {
      var pi := Last(fs.code);
      var local := IsLocal(fs.vlocals, pi.a0);
      FuseRewrites(pi, i, local);
      if o.Raise? && Reach(cx, c0, Raised(o.w)) {
        return o;
      }
      var st :| ArriveVia(cx, fs, c0, o, st);
      MergeArrive(cx, fs, i, nl, n, st);
      o' := Effect(cx, Last(fs'.code), st);
      if Open(fs') {
        assert ArriveVia(cx, fs', c0, o', st);
      } else {
        var c := At(Frontier(fs), st);
        assert cx.code[Frontier(fs)] == Last(fs'.code);
        ReachStep(cx, c);
        ReachTrans(cx, c0, c, Step(cx, c), 0, 1);
        ReachWeaken(cx, c0, Step(cx, c), 1, 0);
        if o'.Ok? {
          assert ArriveVia(cx, fs', c0, o', o'.st);
        }
      }
    } else {
      RunPending(cx, fs, c0, o);
      if o.Raise? {
        return o;
      }
      o' := AppendArrive(cx, fs, i, c0, o);
    }
  }

  lemma MergeArrive(cx: Context, fs: FState, i: Instr, nl: nat, n: nat, st: State)
    requires Straight(i.op) && Dead(i, nl, n) && Shape(fs, nl) && DestSafe(fs, nl)
    requires FuseLast(fs, i).Merge? && Open(fs)
    ensures Straight(Last(fs.code).op) && Straight(Last(Add(fs, i).code).op)
    ensures var o := Pending(cx, fs, st); var o' := Effect(cx, Last(Add(fs, i).code), st);
      if o.Raise? then o' == o else Below(o', Effect(cx, i, o.st), i, n)
  {
    hide Effect, Writes;
    var pi := Last(fs.code);
    var local := IsLocal(fs.vlocals, pi.a0);
    assert Fusible(pi, i);
    MergeEffect(cx, pi, i, local, st);
    assert Elided(pi, i) == -1 || Elided(pi, i) >= n;
  }

  lemma AppendArrive(cx: Context, fs: FState, i: Instr, c0: Conf, o: Outcome) returns (o': Outcome)
    requires Straight(i.op) && FuseLast(fs, i).Keep? && o.Ok?
    requires Agree(cx, Add(fs, i), Frontier(fs)) && Reach(cx, c0, At(|fs.code|, o.st))
    ensures Arrive(cx, Add(fs, i), c0, o')
    ensures Below(o', Effect(cx, i, o.st), i, 0) && forall n: nat :: Below(o', Effect(cx, i, o.st), i, n)
  {
    hide Effect, Writes;
    var fs' := Add(fs, i);
    var j := Last(fs'.code);
    assert j == i || j == Trim(i);
    TrimEffect(cx, i, o.st);
    o' := Effect(cx, j, o.st);
    if Open(fs') {
      assert ArriveVia(cx, fs', c0, o', o.st);
    } else {
      var c := At(|fs.code|, o.st);
      assert cx.code[|fs.code|] == j;
      ReachStep(cx, c);
      ReachTrans(cx, c0, c, Step(cx, c), 0, 1);
      ReachWeaken(cx, c0, Step(cx, c), 1, 0);
      if o'.Ok? {
        assert ArriveVia(cx, fs', c0, o', o'.st);
      }
    }
  }

  /** A conditional jump, merged with the comparison that produced its operand or not: where it goes,
      when it is patched to skip `d` instructions. */
  lemma TestArrive(cx: Context, fs: FState, r: int, a1: int, d: int, c0: Conf, o: Outcome) returns (regs: Regs)
    requires 0 <= r < 256 && Arrive(cx, fs, c0, o)
    requires LastIsCmp(fs) ==> Last(fs.code).a0 == r && 0 <= Last(fs.code).a1 < 0xFF
    requires var fs' := Add(fs, Ins(JZ, r, a1)); var j := Pos(fs');
      j < |cx.code| && cx.code[j] == fs'.code[j].(a1 := d) && forall k :: Frontier(fs) <= k < j ==>
        cx.code[k] == fs'.code[k]
    ensures o.Raise? ==> Reach(cx, c0, Raised(o.w))
    ensures o.Ok? ==>
      var j := Pos(Add(fs, Ins(JZ, r, a1)));
      Reach(cx, c0, At(if IsFalse(Rd(o.st.regs, r)) then j + 1 + d else j + 1, State(regs, o.st.w)), 1)
    ensures o.Ok? ==> forall x :: x != r || !LastIsCmp(fs) ==> Rd(regs, x) == Rd(o.st.regs, x)
  {
    hide Effect;
    var i := Ins(JZ, r, a1);
    var fs' := Add(fs, i);
    var j := Pos(fs');
    regs := map[];
    if LastIsCmp(fs) {
      assert fs'.code == fs.code[..j] + [Instr(JCMP, Last(fs.code).a1, a1, Last(fs.code).a2, Last(fs.code).a3)];
      if o.Raise? && Reach(cx, c0, Raised(o.w)) {
        return;
      }
      var st :| ArriveVia(cx, fs, c0, o, st);
      FusedTest(cx, Last(fs.code), d, j, st);
      var c := At(j, st);
      ReachStep(cx, c);
      ReachTrans(cx, c0, c, Step(cx, c), 0, 1);
      regs := st.regs;
    } else {
      RunPending(cx, fs, c0, o);
      if o.Ok? {
        regs := o.st.regs;
        var c := At(j, o.st);
        ReachStep(cx, c);
        ReachTrans(cx, c0, c, Step(cx, c), 0, 1);
      }
    }
  }

  /** A comparison and a jump on its result, in one instruction. */
  lemma FusedTest(cx: Context, pi: Instr, d: int, j: nat, st: State)
    requires pi.op == CMP && j < |cx.code| && cx.code[j] == Instr(JCMP, pi.a1, d, pi.a2, pi.a3)
    ensures match Effect(cx, pi, st)
      case Raise(w) => Step(cx, At(j, st)) == Raised(w)
      case Ok(st') =>
        && Step(cx, At(j, st)) == At(if IsFalse(Rd(st'.regs, pi.a0)) then j + 1 + d else j + 1, State(st.regs, st'.w))
        && forall x :: x != pi.a0 ==> Rd(st.regs, x) == Rd(st'.regs, x)
  {
  }
}
