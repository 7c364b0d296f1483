/** What `AddInstruction` does to meaning: the instruction it rewrites has the effect of the two it
    replaces, but for the register it no longer writes. */
module Peephole {
  import opened Bytecode
  import opened FuncState

  /** Run `i` after something with outcome `o`. */
  function Then(cx: Context, o: Outcome, i: Instr): Outcome
    requires Straight(i.op)
  {
    match o
    case Raise(_) => o
    case Ok(st) => Effect(cx, i, st)
  }

  /** The register that a merge may leave unwritten, or -1. */
  function Elided(pi: Instr, i: Instr): int {
    match i.op
    case GET => pi.a0
    case PREPCALL => pi.a0
    case APPENDARRAY => pi.a0
    case EQ => pi.a0
    case NE => pi.a0
    case MOVE => if MoveFuses(pi.op) then pi.a0 else -1
    case _ => -1
  }

  /** Registers that `i` writes. */
  predicate Writes(i: Instr, r: int) {
    (i.op != APPENDARRAY && r == i.a0) || (i.op == PREPCALL && r == i.a3)
  }

  /** The fused instruction's other operand is not the register that is elided, and LOADNULLS clears one
      register. */
  predicate Fusible(pi: Instr, i: Instr) {
    match i.op
    case GET => i.a1 != pi.a0
    case PREPCALL => i.a2 != pi.a0
    case APPENDARRAY => i.a0 != pi.a0 && i.a2 == AAT_STACK
    case EQ => i.a2 != pi.a0 && i.a3 == 0
    case NE => i.a2 != pi.a0 && i.a3 == 0
    case LOADNULLS => i.a1 == 1 && pi.a1 >= 0
    case _ => true
  }

  predicate ByteOperands(i: Instr) {
    0 <= i.a0 < 256 && 0 <= i.a2 < 256 && 0 <= i.a3 < 256
  }

  /** Equal outcomes, but for what one register holds. */
  ghost predicate Near(a: Outcome, b: Outcome, i: Instr, elided: int) {
    match (a, b)
    case (Raise(v), Raise(w)) => v == w
    case (Ok(s), Ok(t)) => s.w == t.w && forall r :: r != elided || Writes(i, r) ==> Rd(s.regs, r) == Rd(t.regs, r)
    case _ => false
  }

  predicate RegisterOperand(i: Instr) {
    && (i.op in {GET, PREPCALL, APPENDARRAY, EQ, NE, MOVE} ==> 0 <= i.a1 < 256)
    && (i.op == LOAD ==> i.a1 >= 0)
  }

  /** The merged instruction raises, or ends, exactly as the pair does. */
  ghost predicate Merges(cx: Context, pi: Instr, i: Instr, local: bool, st: State)
    requires Straight(i.op) && Fuse(pi, i, local).Merge?
  {
    && Straight(pi.op) && Straight(Fuse(pi, i, local).i.op)
    && Near(Effect(cx, Fuse(pi, i, local).i, st), Then(cx, Effect(cx, pi, st), i), i, Elided(pi, i))
  }

  lemma MergeGet(cx: Context, pi: Instr, i: Instr, st: State)
    requires i.op == GET && Fuse(pi, i, false).Merge? && Fusible(pi, i) && 0 <= i.a1 < 256
    ensures Merges(cx, pi, i, false, st)
  {
    var st1 := Store(st, pi.a0, Lit(cx.lits, pi.a1));
    assert Effect(cx, pi, st) == Ok(st1);
    assert [Rd(st1.regs, i.a1), Rd(st1.regs, i.a2)] == [Rd(st.regs, i.a1), Lit(cx.lits, pi.a1)];
  }

  lemma MergePrepare(cx: Context, pi: Instr, i: Instr, st: State)
    requires i.op == PREPCALL && Fuse(pi, i, false).Merge? && Fusible(pi, i)
    ensures Merges(cx, pi, i, false, st)
  {
    var st1 := Store(st, pi.a0, Lit(cx.lits, pi.a1));
    assert Effect(cx, pi, st) == Ok(st1);
    assert [Rd(st1.regs, i.a2), Rd(st1.regs, i.a1)] == [Rd(st.regs, i.a2), Lit(cx.lits, pi.a1)];
  }

  lemma MergeAppend(cx: Context, pi: Instr, i: Instr, st: State)
    requires i.op == APPENDARRAY && Fuse(pi, i, false).Merge? && Fusible(pi, i)
    ensures Merges(cx, pi, i, false, st)
  {
    var i' := Fuse(pi, i, false).i;
    var v := AppendOperand(cx.lits, st.regs, i');
    var st1 := Store(st, pi.a0, v);
    assert Effect(cx, pi, st) == Ok(st1);
    assert AppendOperand(cx.lits, st1.regs, i) == v;
    assert [Rd(st1.regs, i.a0), v] == [Rd(st.regs, i.a0), v];
  }

  lemma MergeEqual(cx: Context, pi: Instr, i: Instr, st: State)
    requires (i.op == EQ || i.op == NE) && Fuse(pi, i, false).Merge? && Fusible(pi, i)
    ensures Merges(cx, pi, i, false, st)
  {
    var st1 := Store(st, pi.a0, Lit(cx.lits, pi.a1));
    assert Effect(cx, pi, st) == Ok(st1);
    assert EqOperand(cx, i, st1.regs) == EqOperand(cx, Fuse(pi, i, false).i, st.regs);
  }

  lemma MergeLoads(cx: Context, pi: Instr, i: Instr, local: bool, st: State)
    requires (i.op == LOAD || i.op == LOADNULLS) && Fuse(pi, i, local).Merge? && Fusible(pi, i) && RegisterOperand(i)
    ensures Merges(cx, pi, i, local, st)
  {
  }

  lemma MergeMoves(cx: Context, pi: Instr, i: Instr, local: bool, st: State)
    requires i.op == MOVE && pi.op == MOVE && 0 <= i.a1 < 256
    ensures Fuse(pi, i, local).Merge? && Merges(cx, pi, i, local, st)
  {
  }

  /** Moving a result is computing it in place. */
  lemma MergeResult(cx: Context, pi: Instr, i: Instr, local: bool, st: State)
    requires i.op == MOVE && pi.op != MOVE && Fuse(pi, i, local).Merge?
    ensures Merges(cx, pi, i, local, st)
  {
    if Binary(pi.op) {
      MergeBinary(cx, pi, i, local, st);
    }
  }

  lemma MergeBinary(cx: Context, pi: Instr, i: Instr, local: bool, st: State)
    requires i.op == MOVE && Binary(pi.op) && Fuse(pi, i, local).Merge?
    ensures Merges(cx, pi, i, local, st)
  {
    var i' := Fuse(pi, i, local).i;
    assert Effect(cx, pi, st)
      == Apply(cx, Prim(pi.op, pi.a3, false), [Rd(st.regs, pi.a2), Rd(st.regs, pi.a1)], pi.a0, st);
    assert Effect(cx, i', st)
      == Apply(cx, Prim(pi.op, pi.a3, false), [Rd(st.regs, pi.a2), Rd(st.regs, pi.a1)], i.a0, st);
  }

  /** Every merge of straight-line instructions, for all register contents, literals and effects. */
  lemma MergeEffect(cx: Context, pi: Instr, i: Instr, local: bool, st: State)
    requires Straight(i.op) && Fuse(pi, i, local).Merge? && Fusible(pi, i) && RegisterOperand(i)
    ensures Merges(cx, pi, i, local, st)
  {
    hide Effect, Then, Near, Elided, Merges;
    if i.op == GET {
      MergeGet(cx, pi, i, st);
    } else if i.op == PREPCALL {
      MergePrepare(cx, pi, i, st);
    } else if i.op == APPENDARRAY {
      MergeAppend(cx, pi, i, st);
    } else if i.op == EQ || i.op == NE {
      MergeEqual(cx, pi, i, st);
    } else if i.op == MOVE {
      if pi.op == MOVE {
        MergeMoves(cx, pi, i, local, st);
      } else {
        MergeResult(cx, pi, i, local, st);
      }
    } else {
      MergeLoads(cx, pi, i, local, st);
    }
  }
}
