/** The optimiser on its own: for any stream of straight-line instructions and snoozes, what AddInstruction
    leaves behind has the effect of the plain stream, but for registers it no longer writes. */
module Stream {
  import opened Bytecode
  import opened FuncState
  import opened Peephole

  datatype Item = Emit(i: Instr) | Snoozed

  function Fold(fs: FState, s: seq<Item>): FState
    decreases |s|
  {
    if s == [] then fs else Fold(Feed(fs, s[0]), s[1..])
  }

  function Feed(fs: FState, x: Item): FState {
    match x
    case Emit(i) => Add(fs, i)
    case Snoozed => Snooze(fs)
  }

  /** The instructions of a stream, none merged. */
  function Plain(s: seq<Item>): seq<Instr> {
    if s == [] then [] else (if s[0].Emit? then [s[0].i] else []) + Plain(s[1..])
  }

  predicate AllStraight(code: seq<Instr>) {
    forall k :: 0 <= k < |code| ==> Straight(code[k].op)
  }

  /** Straight-line code from `st`. */
  function RunAll(cx: Context, code: seq<Instr>, st: State): Outcome
    requires AllStraight(code)
  {
    if code == [] then Ok(st) else Then(cx, RunAll(cx, code[..|code| - 1], st), code[|code| - 1])
  }

  /** Equal outcomes, but for what the registers of `d` hold. */
  ghost predicate AgreeBut(a: Outcome, b: Outcome, d: set<int>) {
    match (a, b)
    case (Raise(v), Raise(w)) => v == w
    case (Ok(s), Ok(t)) => s.w == t.w && SameBut(s.regs, t.regs, d)
    case _ => false
  }

  ghost predicate SameBut(a: Regs, b: Regs, d: set<int>) {
    forall r :: r !in d ==> Rd(a, r) == Rd(b, r)
  }

  /** Registers an instruction reads. */
  predicate Reads(i: Instr, r: int) {
    match i.op
    case MOVE => r == i.a1
    case DMOVE => r == i.a1 || r == i.a3
    case CALL => r == i.a1 || i.a2 <= r < i.a2 + i.a3
    case PREPCALL => r == i.a1 || r == i.a2
    case PREPCALLK => r == i.a2
    case GETK => r == i.a2
    case SET => r == i.a1 || r == i.a2 || r == i.a3
    case EQ => r == i.a2 || (i.a3 == 0 && r == i.a1)
    case NE => r == i.a2 || (i.a3 == 0 && r == i.a1)
    case COMPARITH => r == High(i.a1) || r == Low(i.a1) || r == i.a2
    case APPENDARRAY => r == i.a0 || (i.a2 == AAT_STACK && r == i.a1)
    case LOAD => false
    case LOADINT => false
    case LOADFLOAT => false
    case LOADBOOL => false
    case LOADNULLS => false
    case DLOAD => false
    case NEWOBJ => false
    case _ => r == i.a1 || ((Binary(i.op) || i.op in {GET, INC, PINC}) && r == i.a2)
  }

  /** Registers an instruction gives a value of its own. */
  function Cleared(i: Instr): set<int> {
    (if i.op in {APPENDARRAY, SET, CALL, INCL, LOADNULLS} then {} else {i.a0})
      + (if i.op == PREPCALL then {i.a3} else {})
  }

  /** The registers that may differ after `x`: those that did, and the one a merge leaves unwritten. */
  function Dirty(fs: FState, i: Instr, d: set<int>): set<int> {
    d + (if FuseLast(fs, i).Merge? && |fs.code| > 0 then {Elided(Last(fs.code), i)} else {}) - Cleared(i)
  }

  function DirtyAfter(fs: FState, s: seq<Item>, d: set<int>): set<int>
    decreases |s|
  {
    if s == [] then d
    else DirtyAfter(Feed(fs, s[0]), s[1..], if s[0].Emit? then Dirty(fs, s[0].i, d) else d)
  }

  /** No register left unwritten is read again before it is written, and a merge's other operand is not
      the register it elides. */
  predicate Sound(fs: FState, s: seq<Item>, d: set<int>)
    decreases |s|
  {
    s == []
    || (s[0].Snoozed? && Sound(Snooze(fs), s[1..], d))
    || (s[0].Emit? && Mergeable(fs, s[0].i) && (forall r :: r in d ==> !Reads(s[0].i, r))
      && Sound(Add(fs, s[0].i), s[1..], Dirty(fs, s[0].i, d)))
  }

  predicate Mergeable(fs: FState, i: Instr) {
    Straight(i.op) && RegisterOperand(i) && (FuseLast(fs, i).Merge? && |fs.code| > 0 ==> Fusible(Last(fs.code), i))
  }

  /** An instruction that reads none of the registers in doubt. */
  lemma EffectAgrees(cx: Context, i: Instr, s: State, t: State, d: set<int>)
    requires Straight(i.op) && s.w == t.w && SameBut(s.regs, t.regs, d) && forall r :: r in d ==> !Reads(i, r)
    ensures AgreeBut(Effect(cx, i, s), Effect(cx, i, t), d - Cleared(i))
  {
    hide *;
    match i.op {
      case CALL => CallAgrees(cx, i, s, t, d);
      case SET => StoreAgrees(cx, i, s, t, d);
      case PREPCALL => PrepareAgrees(cx, i, s, t, d);
      case PREPCALLK => PrepareAgrees(cx, i, s, t, d);
      case GET => LookupAgrees(cx, i, s, t, d);
      case GETK => LookupAgrees(cx, i, s, t, d);
      case INCL => IncAgrees(cx, i, s, t, d);
      case PINCL => IncAgrees(cx, i, s, t, d);
      case INC => IncAgrees(cx, i, s, t, d);
      case PINC => IncAgrees(cx, i, s, t, d);
      case COMPARITH => OtherAgrees(cx, i, s, t, d);
      case APPENDARRAY => OtherAgrees(cx, i, s, t, d);
      case NEWOBJ => OtherAgrees(cx, i, s, t, d);
      case EQ => EqualAgrees(cx, i, s, t, d);
      case NE => EqualAgrees(cx, i, s, t, d);
      case NOT => OperatorAgrees(cx, i, s, t, d);
      case NEG => OperatorAgrees(cx, i, s, t, d);
      case BWNOT => OperatorAgrees(cx, i, s, t, d);
      case TYPEOF => OperatorAgrees(cx, i, s, t, d);
      case CLONE => OperatorAgrees(cx, i, s, t, d);
      case ADD => BinaryAgrees(cx, i, s, t, d);
      case SUB => BinaryAgrees(cx, i, s, t, d);
      case MUL => BinaryAgrees(cx, i, s, t, d);
      case DIV => BinaryAgrees(cx, i, s, t, d);
      case MOD => BinaryAgrees(cx, i, s, t, d);
      case BITW => BinaryAgrees(cx, i, s, t, d);
      case CMP => BinaryAgrees(cx, i, s, t, d);
      case EXISTS => BinaryAgrees(cx, i, s, t, d);
      case INSTANCEOF => BinaryAgrees(cx, i, s, t, d);
      case AND => NotStraight(i);
      case OR => NotStraight(i);
      case JMP => NotStraight(i);
      case JZ => NotStraight(i);
      case JCMP => NotStraight(i);
      case RETURN => NotStraight(i);
      case LOADNULLS => NullsAgrees(cx, i, s, t, d);
      case MOVE => MoveAgrees(cx, i, s, t, d);
      case DMOVE => MoveAgrees(cx, i, s, t, d);
      case _ => LoadAgrees(cx, i, s, t, d);
    }
  }

  lemma NotStraight(i: Instr)
    requires i.op in {AND, OR, JMP, JZ, JCMP, RETURN}
    ensures !Straight(i.op)
  {
  }

  lemma CallAgrees(cx: Context, i: Instr, s: State, t: State, d: set<int>)
    requires i.op == CALL && s.w == t.w && SameBut(s.regs, t.regs, d) && forall r :: r in d ==> !Reads(i, r)
    ensures AgreeBut(Effect(cx, i, s), Effect(cx, i, t), d - Cleared(i))
  {
    var n := if i.a3 >= 0 then i.a3 else 0;
    assert Window(s.regs, i.a2, n) == Window(t.regs, i.a2, n);
  }

  lemma StoreAgrees(cx: Context, i: Instr, s: State, t: State, d: set<int>)
    requires i.op == SET && s.w == t.w && SameBut(s.regs, t.regs, d) && forall r :: r in d ==> !Reads(i, r)
    ensures AgreeBut(Effect(cx, i, s), Effect(cx, i, t), d - Cleared(i))
  {
  }

  lemma PrepareAgrees(cx: Context, i: Instr, s: State, t: State, d: set<int>)
    requires (i.op == PREPCALL || i.op == PREPCALLK) && s.w == t.w && SameBut(s.regs, t.regs, d) && forall r ::
      r in d ==> !Reads(i, r)
    ensures AgreeBut(Effect(cx, i, s), Effect(cx, i, t), d - Cleared(i))
  {
  }

  lemma LookupAgrees(cx: Context, i: Instr, s: State, t: State, d: set<int>)
    requires (i.op == GET || i.op == GETK) && s.w == t.w && SameBut(s.regs, t.regs, d) && forall r :: r in d ==>
      !Reads(i, r)
    ensures AgreeBut(Effect(cx, i, s), Effect(cx, i, t), d - Cleared(i))
  {
  }

  lemma IncAgrees(cx: Context, i: Instr, s: State, t: State, d: set<int>)
    requires i.op in {INCL, PINCL, INC, PINC} && s.w == t.w && SameBut(s.regs, t.regs, d) && forall r :: r in d ==>
      !Reads(i, r)
    ensures AgreeBut(Effect(cx, i, s), Effect(cx, i, t), d - Cleared(i))
  {
  }

  lemma OtherAgrees(cx: Context, i: Instr, s: State, t: State, d: set<int>)
    requires i.op in {COMPARITH, APPENDARRAY, NEWOBJ} && s.w == t.w && SameBut(s.regs, t.regs, d) && forall r ::
      r in d ==> !Reads(i, r)
    ensures AgreeBut(Effect(cx, i, s), Effect(cx, i, t), d - Cleared(i))
  {
  }

  lemma EqualAgrees(cx: Context, i: Instr, s: State, t: State, d: set<int>)
    requires i.op in {EQ, NE} && s.w == t.w && SameBut(s.regs, t.regs, d) && forall r :: r in d ==> !Reads(i, r)
    ensures AgreeBut(Effect(cx, i, s), Effect(cx, i, t), d - Cleared(i))
  {
  }

  lemma OperatorAgrees(cx: Context, i: Instr, s: State, t: State, d: set<int>)
    requires i.op in {NOT, NEG, BWNOT, TYPEOF, CLONE} && s.w == t.w && SameBut(s.regs, t.regs, d) && forall r ::
      r in d ==> !Reads(i, r)
    ensures AgreeBut(Effect(cx, i, s), Effect(cx, i, t), d - Cleared(i))
  {
  }

  lemma BinaryAgrees(cx: Context, i: Instr, s: State, t: State, d: set<int>)
    requires i.op in {ADD, SUB, MUL, DIV, MOD, BITW, CMP, EXISTS, INSTANCEOF} && s.w == t.w
      && SameBut(s.regs, t.regs, d)
    requires forall r :: r in d ==> !Reads(i, r)
    ensures AgreeBut(Effect(cx, i, s), Effect(cx, i, t), d - Cleared(i))
  {
  }

  lemma LoadAgrees(cx: Context, i: Instr, s: State, t: State, d: set<int>)
    requires i.op in {LOAD, LOADINT, LOADFLOAT, LOADBOOL, DLOAD} && s.w == t.w && SameBut(s.regs, t.regs, d)
    ensures AgreeBut(Effect(cx, i, s), Effect(cx, i, t), d - Cleared(i))
  {
  }

  lemma NullsAgrees(cx: Context, i: Instr, s: State, t: State, d: set<int>)
    requires i.op == LOADNULLS && s.w == t.w && SameBut(s.regs, t.regs, d)
    ensures AgreeBut(Effect(cx, i, s), Effect(cx, i, t), d - Cleared(i))
  {
    assert SameBut(Nulls(s.regs, i.a0, i.a1), Nulls(t.regs, i.a0, i.a1), d);
  }

  lemma MoveAgrees(cx: Context, i: Instr, s: State, t: State, d: set<int>)
    requires (i.op == MOVE || i.op == DMOVE) && s.w == t.w && SameBut(s.regs, t.regs, d) && forall r :: r in d ==>
      !Reads(i, r)
    ensures AgreeBut(Effect(cx, i, s), Effect(cx, i, t), d - Cleared(i))
  {
    assert Reads(i, i.a1) && (i.op == DMOVE ==> Reads(i, i.a3));
  }

  // --- whole streams

  lemma AgreeTrans(a: Outcome, b: Outcome, c: Outcome, d: set<int>, e: set<int>)
    requires AgreeBut(a, b, d) && AgreeBut(b, c, e)
    ensures AgreeBut(a, c, d + e)
  {
  }

  lemma AgreeWeaken(a: Outcome, b: Outcome, d: set<int>, e: set<int>)
    requires AgreeBut(a, b, d) && d <= e
    ensures AgreeBut(a, b, e)
  {
  }

  /** Running one more instruction on agreeing outcomes. */
  lemma ThenAgrees(cx: Context, i: Instr, a: Outcome, b: Outcome, d: set<int>)
    requires Straight(i.op) && AgreeBut(a, b, d) && forall r :: r in d ==> !Reads(i, r)
    ensures AgreeBut(Then(cx, a, i), Then(cx, b, i), d - Cleared(i))
  {
    hide Effect, Reads, Cleared;
    if a.Ok? {
      EffectAgrees(cx, i, a.st, b.st, d);
    }
  }

  /** One step of the optimiser. */
  lemma AddAgrees(cx: Context, fs: FState, i: Instr, st: State, plain: Outcome, d: set<int>)
    requires AllStraight(fs.code) && Mergeable(fs, i) && AgreeBut(RunAll(cx, fs.code, st), plain, d)
    requires forall r :: r in d ==> !Reads(i, r)
    ensures AllStraight(Add(fs, i).code)
      && AgreeBut(RunAll(cx, Add(fs, i).code, st), Then(cx, plain, i), Dirty(fs, i, d))
  {
    hide Effect, Reads, Cleared, Near, Fuse, Elided, Fusible, RegisterOperand, SameBut, Trim, Writes;
    var run := RunAll(cx, fs.code, st);
    ThenAgrees(cx, i, run, plain, d);
    if FuseLast(fs, i).Merge? {
      var pi := Last(fs.code);
      var before := RunAll(cx, fs.code[..|fs.code| - 1], st);
      var i' := FuseLast(fs, i).i;
      FusesStraight(pi, i, IsLocal(fs.vlocals, pi.a0));
      assert Add(fs, i).code[..|fs.code| - 1] == fs.code[..|fs.code| - 1];
      MergeAgrees(cx, pi, i, IsLocal(fs.vlocals, pi.a0), before);
      AgreeTrans(Then(cx, before, i'), Then(cx, run, i), Then(cx, plain, i), {Elided(pi, i)} - Cleared(i),
        d - Cleared(i));
      AgreeWeaken(Then(cx, before, i'), Then(cx, plain, i), ({Elided(pi, i)} - Cleared(i)) + (d - Cleared(i)),
        Dirty(fs, i, d));
    } else {
      var j := if |fs.code| > 0 && fs.opt then Trim(i) else i;
      assert Add(fs, i).code == fs.code + [j];
      assert (fs.code + [j])[..|fs.code|] == fs.code;
      TrimAgrees(cx, i, run);
      TrimStraight(i);
      AgreeTrans(Then(cx, run, j), Then(cx, run, i), Then(cx, plain, i), {}, d - Cleared(i));
      AgreeWeaken(Then(cx, run, j), Then(cx, plain, i), {} + (d - Cleared(i)), Dirty(fs, i, d));
    }
  }

  lemma FusesStraight(pi: Instr, i: Instr, local: bool)
    requires Straight(i.op) && Fuse(pi, i, local).Merge?
    ensures Straight(pi.op) && Straight(Fuse(pi, i, local).i.op)
  {
  }

  lemma TrimStraight(i: Instr)
    ensures Trim(i).op == i.op
  {
  }

  lemma MergeAgrees(cx: Context, pi: Instr, i: Instr, local: bool, before: Outcome)
    requires Straight(i.op) && Straight(pi.op) && Fuse(pi, i, local).Merge? && Straight(Fuse(pi, i, local).i.op)
    requires Fusible(pi, i) && RegisterOperand(i)
    ensures AgreeBut(Then(cx, before, Fuse(pi, i, local).i), Then(cx, Then(cx, before, pi), i),
      {Elided(pi, i)} - Cleared(i))
  {
    hide Effect, Fuse, Elided, Fusible, RegisterOperand;
    if before.Ok? {
      MergeEffect(cx, pi, i, local, before.st);
      NearBut(Effect(cx, Fuse(pi, i, local).i, before.st), Then(cx, Effect(cx, pi, before.st), i), i, Elided(pi, i));
    }
  }

  lemma NearBut(a: Outcome, b: Outcome, i: Instr, elided: int)
    requires Near(a, b, i, elided)
    ensures AgreeBut(a, b, {elided} - Cleared(i))
  {
    if a.Ok? && b.Ok? {
      forall r | r !in {elided} - Cleared(i) ensures Rd(a.st.regs, r) == Rd(b.st.regs, r) {
        assert r != elided || Writes(i, r);
      }
    }
  }

  lemma TrimAgrees(cx: Context, i: Instr, run: Outcome)
    requires Straight(i.op)
    ensures Straight(Trim(i).op) && AgreeBut(Then(cx, run, i), Then(cx, run, i), {})
      && AgreeBut(Then(cx, run, Trim(i)), Then(cx, run, i), {})
  {
    if i.op != SET || i.a0 != i.a3 {
      assert Trim(i) == i;
    }
  }

  /** Any stream of instructions and snoozes: the optimised code raises exactly when the plain code does, has
      the same effect on everything outside the registers, and leaves the same values in every register that
      it did not leave unwritten on the way. */
  lemma {:induction false} StreamAgrees(cx: Context, fs: FState, s: seq<Item>, st: State, p: seq<Instr>, d: set<int>)
    requires AllStraight(fs.code) && AllStraight(p) && Sound(fs, s, d)
      && AgreeBut(RunAll(cx, fs.code, st), RunAll(cx, p, st), d)
    ensures AllStraight(Fold(fs, s).code) && AllStraight(p + Plain(s))
    ensures AgreeBut(RunAll(cx, Fold(fs, s).code, st), RunAll(cx, p + Plain(s), st), DirtyAfter(fs, s, d))
    decreases |s|
  {
    hide *;
    if s == [] {
      Ended(fs, p, d);
    } else if s[0].Snoozed? {
      Unfolded(fs, s, p, d);
      SnoozeRuns(fs);
      StreamAgrees(cx, Snooze(fs), s[1..], st, p, d);
    } else {
      var i := s[0].i;
      Unfolded(fs, s, p, d);
      RunMore(cx, p, i, st);
      AddAgrees(cx, fs, i, st, RunAll(cx, p, st), d);
      StreamAgrees(cx, Add(fs, i), s[1..], st, p + [i], Dirty(fs, i, d));
    }
  }

  lemma Ended(fs: FState, p: seq<Instr>, d: set<int>)
    ensures Fold(fs, []) == fs && p + Plain([]) == p && DirtyAfter(fs, [], d) == d
  {
  }

  lemma Unfolded(fs: FState, s: seq<Item>, p: seq<Instr>, d: set<int>)
    requires s != [] && Sound(fs, s, d)
    ensures s[0].Snoozed? ==>
      Sound(Snooze(fs), s[1..], d) && Fold(fs, s) == Fold(Snooze(fs), s[1..]) && p + Plain(s) == p + Plain(s[1..])
    ensures s[0].Snoozed? ==> DirtyAfter(fs, s, d) == DirtyAfter(Snooze(fs), s[1..], d)
    ensures s[0].Emit? ==> var i := s[0].i;
      && Straight(i.op) && Mergeable(fs, i) && (forall r :: r in d ==> !Reads(i, r))
      && Sound(Add(fs, i), s[1..], Dirty(fs, i, d))
      && Fold(fs, s) == Fold(Add(fs, i), s[1..]) && p + Plain(s) == (p + [i]) + Plain(s[1..])
      && DirtyAfter(fs, s, d) == DirtyAfter(Add(fs, i), s[1..], Dirty(fs, i, d))
  {
    hide *;
    SoundNext(fs, s, d);
    FoldNext(fs, s, d);
    PlainNext(s, p);
  }

  lemma SoundNext(fs: FState, s: seq<Item>, d: set<int>)
    requires s != [] && Sound(fs, s, d)
    ensures s[0].Snoozed? ==> Sound(Snooze(fs), s[1..], d)
    ensures s[0].Emit? ==> var i := s[0].i;
      && Straight(i.op) && Mergeable(fs, i) && (forall r :: r in d ==> !Reads(i, r))
      && Sound(Add(fs, i), s[1..], Dirty(fs, i, d))
  {
    hide Add, Snooze, Dirty, Reads, RegisterOperand, Fusible, FuseLast;
  }

  lemma FoldNext(fs: FState, s: seq<Item>, d: set<int>)
    requires s != []
    ensures s[0].Snoozed? ==>
      Fold(fs, s) == Fold(Snooze(fs), s[1..]) && DirtyAfter(fs, s, d) == DirtyAfter(Snooze(fs), s[1..], d)
    ensures s[0].Emit? ==> var i := s[0].i;
      Fold(fs, s) == Fold(Add(fs, i), s[1..]) && DirtyAfter(fs, s, d) == DirtyAfter(Add(fs, i), s[1..], Dirty(fs, i, d))
  {
    hide Add, Snooze, Dirty;
  }

  lemma {:induction false} PlainNext(s: seq<Item>, p: seq<Instr>)
    requires s != []
    ensures s[0].Snoozed? ==> p + Plain(s) == p + Plain(s[1..])
    ensures s[0].Emit? ==> p + Plain(s) == (p + [s[0].i]) + Plain(s[1..])
  {
    var rest := Plain(s[1..]);
    if s[0].Snoozed? {
      assert [] + rest == rest;
    } else {
      assert Plain(s) == [s[0].i] + rest;
      assert p + ([s[0].i] + rest) == (p + [s[0].i]) + rest;
    }
  }

  lemma SnoozeRuns(fs: FState)
    ensures Snooze(fs).code == fs.code
  {
  }

  lemma RunMore(cx: Context, p: seq<Instr>, i: Instr, st: State)
    requires AllStraight(p) && Straight(i.op)
    ensures AllStraight(p + [i]) && RunAll(cx, p + [i], st) == Then(cx, RunAll(cx, p, st), i)
  {
    assert (p + [i])[..|p|] == p;
  }

  // --- what the merges need

  /** A conditional jump is merged with the comparison before it whatever register it tests. The merged jump
      goes where the pair would, in every state and under every meaning of the comparison, exactly when the
      register tested is the one the comparison wrote. */
  lemma TestMergeIff(pi: Instr, r: int, d: int)
    requires pi.op == CMP && 0 <= pi.a1 < 0xFF && 0 <= r < 256 && d > 0
    ensures Fuse(pi, Ins(JZ, r, d), false) == Merge(Instr(JCMP, pi.a1, d, pi.a2, pi.a3), true)
    ensures (forall cx: Context, st: State :: SameTest(cx, pi, r, d, st)) <==> r == pi.a0
  {
    hide SameTest;
    if r == pi.a0 {
      forall cx: Context, st: State ensures SameTest(cx, pi, r, d, st) {
        TestsSame(cx, pi, r, d, st);
      }
    } else {
      var never := Context([], [],
        Prims((p: Prim, a: seq<Val>, w: World) => Done(Bool(false), w), (f: Val, a: seq<Val>, w: World) => CallThrew(w),
        (a: int, b: int) => false));
      var st := State(map[r := Bool(true)], 0);
      TestsDiffer(never, pi, r, d, st);
      assert !SameTest(never, pi, r, d, st);
    }
  }

  /** The merged jump leaves for the same place as the comparison followed by the jump. */
  ghost predicate SameTest(cx: Context, pi: Instr, r: int, d: int, st: State)
    requires pi.op == CMP
  {
    match Effect(cx, pi, st)
    case Raise(w) => Branch(cx, Instr(JCMP, pi.a1, d, pi.a2, pi.a3), 0, st) == Raised(w)
    case Ok(st1) =>
      && Branch(cx, Instr(JCMP, pi.a1, d, pi.a2, pi.a3), 0, st).At?
      && Branch(cx, Instr(JCMP, pi.a1, d, pi.a2, pi.a3), 0, st).pc == Branch(cx, Ins(JZ, r, d), 0, st1).pc
  }

  lemma TestsSame(cx: Context, pi: Instr, r: int, d: int, st: State)
    requires pi.op == CMP && r == pi.a0 && 0 <= r < 256
    ensures SameTest(cx, pi, r, d, st)
  {
  }

  lemma TestsDiffer(cx: Context, pi: Instr, r: int, d: int, st: State)
    requires pi.op == CMP && r != pi.a0 && 0 <= r < 256 && d > 0
    requires st.regs == map[r := Bool(true)] && forall a, w ::
      cx.prims.apply(Prim(CMP, pi.a3, false), a, w) == Done(Bool(false), w)
    ensures !SameTest(cx, pi, r, d, st)
  {
  }

  /** Merging a result with the move that follows it does not look at local variables: the register the
      result was computed into keeps its old value, unless it is also where the result is moved. This holds
      of each of the eleven operations that merge with a move, whichever registers their operands are. */
  lemma MoveMergeIff(pi: Instr, dst: int, local: bool)
    requires MoveFuses(pi.op) && 0 <= pi.a0 < 256 && 0 <= dst < 256
    ensures Fuse(pi, Ins(MOVE, dst, pi.a0), local) == Merge(pi.(a0 := dst), false)
    ensures (forall cx: Context, st: State :: KeepsLocal(cx, pi, dst, st)) <==> dst == pi.a0
  {
    hide KeepsLocal;
    if dst == pi.a0 {
      forall cx: Context, st: State ensures KeepsLocal(cx, pi, dst, st) {
        LocalKept(cx, pi, dst, st);
      }
    } else {
      var cx := Context([], [],
        Prims((p: Prim, a: seq<Val>, w: World) => Done(Null, w), (f: Val, a: seq<Val>, w: World) => CallThrew(w),
        (a: int, b: int) => false));
      LocalLost(cx, pi, dst);
    }
  }

  /** The merged instruction does what the operation and the move do. */
  ghost predicate KeepsLocal(cx: Context, pi: Instr, dst: int, st: State)
    requires MoveFuses(pi.op)
  {
    AgreeBut(Effect(cx, pi.(a0 := dst), st), Then(cx, Effect(cx, pi, st), Ins(MOVE, dst, pi.a0)), {})
  }

  lemma LocalKept(cx: Context, pi: Instr, dst: int, st: State)
    requires MoveFuses(pi.op) && dst == pi.a0 && 0 <= dst < 256
    ensures KeepsLocal(cx, pi, dst, st)
  {
    hide Effect;
    assert pi.(a0 := dst) == pi;
    match Effect(cx, pi, st)
    case Raise(_) =>
    case Ok(st1) => MoveEffect(cx, dst, dst, st1);
  }

  lemma MoveEffect(cx: Context, dst: int, r: int, st: State)
    requires 0 <= dst < 256
    ensures Effect(cx, Ins(MOVE, dst, r), st) == Ok(Store(st, dst, Rd(st.regs, r)))
  {
  }

  /** Where everything succeeds with null, a register that held an object shows the difference. */
  lemma LocalLost(cx: Context, pi: Instr, dst: int)
    requires MoveFuses(pi.op) && dst != pi.a0 && 0 <= dst < 256 && cx.lits == []
    requires forall p, a, w :: cx.prims.apply(p, a, w) == Done(Null, w)
    ensures !KeepsLocal(cx, pi, dst, State(map[pi.a0 := Obj(1)], 0))
  {
    var st := State(map[pi.a0 := Obj(1)], 0);
    var v := Value(cx, pi, pi.a0, st);
    var v' := Value(cx, pi.(a0 := dst), dst, st);
    hide Effect;
    MoveEffect(cx, dst, pi.a0, Store(st, pi.a0, v));
    assert Rd(Store(st, dst, v').regs, pi.a0) == Obj(1);
  }

  lemma Value(cx: Context, pi: Instr, r: int, st: State) returns (v: Val)
    requires MoveFuses(pi.op) && pi.a0 == r && cx.lits == []
    requires forall p, a, w :: cx.prims.apply(p, a, w) == Done(Null, w)
    ensures Effect(cx, pi, st) == Ok(Store(st, r, v)) && v != Obj(1)
  {
    match pi.op
    case LOADINT => v := Int(pi.a1);
    case LOADFLOAT => v := Float(pi.a1);
    case LOADBOOL => v := Bool(pi.a1 != 0);
    case _ => v := Null;
  }
}
