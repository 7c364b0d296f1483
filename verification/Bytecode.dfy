/** The register machine of `LVVM::Execute`: values, instructions, and what each opcode does to one
    activation's registers. Everything an instruction may do to the rest of the virtual machine (heap,
    metamethods, calls) is an arbitrary deterministic effect on an opaque `World`, so what is proved
    about compiled code holds for every interpretation of those effects. */
module Bytecode {

  type World = int

  /** Floats are their 32-bit patterns; objects are identities. */
  datatype Val =
    | Null
    | Bool(b: bool)
    | Int(i: int)
    | Float(bits: int)
    | Str(s: string)
    | Obj(id: int)

  datatype Op =
    | LOAD | LOADINT | LOADFLOAT | LOADBOOL | LOADNULLS | DLOAD
    | MOVE | DMOVE
    | CALL | PREPCALL | PREPCALLK
    | GET | GETK | SET
    | EQ | NE | ADD | SUB | MUL | DIV | MOD | BITW | CMP | EXISTS | INSTANCEOF
    | NEG | NOT | BWNOT | TYPEOF | CLONE
    | INCL | PINCL | INC | PINC | COMPARITH
    | NEWOBJ | APPENDARRAY
    | AND | OR | JMP | JZ | JCMP
    | RETURN

  datatype Instr = Instr(op: Op, a0: int, a1: int, a2: int, a3: int)

  const NO_TARGET := 0xFF          // a destination byte that means "do not store"
  const MAX_FUNC_STACKSIZE := 0xFF

  const NOT_ARRAY := 1
  const AAT_STACK := 0
  const AAT_LITERAL := 1
  const AAT_INT := 2
  const AAT_FLOAT := 3
  const AAT_BOOL := 4

  /** The conversion to `unsigned char` that every byte operand goes through. */
  function Byte(x: int): (r: int)
    ensures 0 <= r < 256
    ensures 0 <= x < 256 ==> r == x
  {
    if 0 <= x < 256 then x else x % 256
  }

  /** A byte operand read back as a signed char. */
  function Signed(x: int): int {
    if x < 128 then x else x - 256
  }

  /** The constructor of LVInstruction: three operands are bytes. */
  function Ins(op: Op, a0: int := 0, a1: int := 0, a2: int := 0, a3: int := 0): Instr {
    Instr(op, Byte(a0), a1, Byte(a2), Byte(a3))
  }

  // --- effects on the rest of the machine

  /** An effect is named by its opcode, its immediate operand, and whether the object it works on sits
      in register 0 (`this`), which makes failed lookups fall back to the root table. */
  datatype Prim = Prim(op: Op, imm: int, onThis: bool)

  datatype PrimResult = Done(v: Val, w: World) | Threw(w: World)

  /** A call may leave anything in the registers from its base upward. */
  datatype CallResult = Returns(v: Val, w: World, junk: map<int, Val>) | CallThrew(w: World)

  datatype Prims = Prims(
    apply: (Prim, seq<Val>, World) -> PrimResult,
    call: (Val, seq<Val>, World) -> CallResult,
    sameNumber: (int, int) -> bool)

  // --- registers

  type Regs = map<int, Val>

  function Rd(regs: Regs, r: int): Val {
    if r in regs then regs[r] else Null
  }

  /** The registers after a callee has used everything from `base` upward. */
  function Clobber(regs: Regs, base: int, junk: Regs): (regs': Regs)
    ensures forall r :: Rd(regs', r) == if r < base then Rd(regs, r) else Rd(junk, r)
  {
    (map r | r in regs && r < base :: regs[r]) + (map r | r in junk && r >= base :: junk[r])
  }

  function Nulls(regs: Regs, a: int, n: int): (regs': Regs)
    ensures forall r :: Rd(regs', r) == if a <= r < a + n then Null else Rd(regs, r)
    decreases n
  {
    if n <= 0 then regs
    else
      var below := Nulls(regs, a, n - 1);
      var all := below[a + n - 1 := Null];
      assert forall r :: Rd(all, r) == if r == a + n - 1 then Null else Rd(below, r);
      all
  }

  function Window(regs: Regs, base: int, n: nat): (s: seq<Val>)
    ensures |s| == n && forall k :: 0 <= k < n ==> s[k] == Rd(regs, base + k)
  {
    seq(n, k => Rd(regs, base + k))
  }

  // --- one instruction

  datatype State = State(regs: Regs, w: World)
  datatype Outcome = Ok(st: State) | Raise(w: World)

  /** The code being run, its literal table, and the effects. */
  datatype Context = Context(code: seq<Instr>, lits: seq<Val>, prims: Prims)

  function Lit(lits: seq<Val>, i: int): Val {
    if 0 <= i < |lits| then lits[i] else Null
  }

  predicate IsFalse(v: Val) {
    match v
    case Null => true
    case Bool(b) => !b
    case Int(i) => i == 0
    case Float(bits) => bits == 0 || bits == 0x8000_0000
    case Str(_) => false
    case Obj(_) => false
  }

  /** Values of one type are compared raw; an integer and a float by number; the rest differ. */
  predicate IsEqual(prims: Prims, a: Val, b: Val) {
    match (a, b)
    case (Int(i), Float(f)) => prims.sameNumber(i, f)
    case (Float(f), Int(i)) => prims.sameNumber(i, f)
    case _ => a == b
  }

  function Store(st: State, r: int, v: Val): State {
    st.(regs := st.regs[r := v])
  }

  /** Run an effect on `args` and put its result in register `r`. */
  function Apply(cx: Context, p: Prim, args: seq<Val>, r: int, st: State): Outcome {
    match cx.prims.apply(p, args, st.w)
    case Done(v, w) => Ok(Store(st, r, v).(w := w))
    case Threw(w) => Raise(w)
  }

  predicate Binary(op: Op) {
    op in {ADD, SUB, MUL, DIV, MOD, BITW, CMP, EXISTS, INSTANCEOF}
  }

  predicate Unary(op: Op) {
    op in {NEG, BWNOT, TYPEOF, CLONE}
  }

  /** Instructions that fall through: everything but jumps and return. */
  predicate Straight(op: Op) {
    op !in {AND, OR, JMP, JZ, JCMP, RETURN}
  }

  function AppendOperand(lits: seq<Val>, regs: Regs, i: Instr): Val {
    if i.a2 == AAT_STACK then Rd(regs, i.a1)
    else if i.a2 == AAT_LITERAL then Lit(lits, i.a1)
    else if i.a2 == AAT_INT then Int(i.a1)
    else if i.a2 == AAT_FLOAT then Float(i.a1)
    else Bool(i.a1 != 0)
  }

  function Call(cx: Context, i: Instr, st: State): Outcome {
    match cx.prims.call(Rd(st.regs, i.a1), Window(st.regs, i.a2, if i.a3 >= 0 then i.a3 else 0), st.w)
    case CallThrew(w) => Raise(w)
    case Returns(v, w, junk) =>
      var after := State(Clobber(st.regs, i.a2, junk), w);
      Ok(if i.a0 == NO_TARGET then after else Store(after, i.a0, v))
  }

  /** What a straight-line instruction does. */
  function Effect(cx: Context, i: Instr, st: State): Outcome
    requires Straight(i.op)
  {
    var R := st.regs;
    match i.op
    case LOAD => Ok(Store(st, i.a0, Lit(cx.lits, i.a1)))
    case LOADINT => Ok(Store(st, i.a0, Int(i.a1)))
    case LOADFLOAT => Ok(Store(st, i.a0, Float(i.a1)))
    case LOADBOOL => Ok(Store(st, i.a0, Bool(i.a1 != 0)))
    case LOADNULLS => Ok(st.(regs := Nulls(R, i.a0, i.a1)))
    case DLOAD => Ok(Store(Store(st, i.a0, Lit(cx.lits, i.a1)), i.a2, Lit(cx.lits, i.a3)))
    case MOVE => Ok(Store(st, i.a0, Rd(R, i.a1)))
    case DMOVE =>
      var st1 := Store(st, i.a0, Rd(R, i.a1));
      Ok(Store(st1, i.a2, Rd(st1.regs, i.a3)))
    case CALL => Call(cx, i, st)
    case PREPCALL => Prepare(cx, Rd(R, i.a1), i, st)
    case PREPCALLK => Prepare(cx, Lit(cx.lits, i.a1), i, st)
    case GET => Apply(cx, Prim(GET, 0, i.a1 == 0), [Rd(R, i.a1), Rd(R, i.a2)], i.a0, st)
    case GETK => Apply(cx, Prim(GET, 0, i.a2 == 0), [Rd(R, i.a2), Lit(cx.lits, i.a1)], i.a0, st)
    case SET =>
      (match cx.prims.apply(Prim(SET, 0, i.a1 == 0), [Rd(R, i.a1), Rd(R, i.a2), Rd(R, i.a3)], st.w)
       case Threw(w) => Raise(w)
       case Done(_, w) => Ok(if i.a0 == NO_TARGET then st.(w := w) else Store(st.(w := w), i.a0, Rd(R, i.a3))))
    case EQ => Ok(Store(st, i.a0, Bool(IsEqual(cx.prims, Rd(R, i.a2), EqOperand(cx, i, R)))))
    case NE => Ok(Store(st, i.a0, Bool(!IsEqual(cx.prims, Rd(R, i.a2), EqOperand(cx, i, R)))))
    case NOT => Ok(Store(st, i.a0, Bool(IsFalse(Rd(R, i.a1)))))
    case INCL => Apply(cx, Prim(ADD, 0, false), [Rd(R, i.a1), Int(Signed(i.a3))], i.a1, st)
    case PINCL =>
      (match Apply(cx, Prim(ADD, 0, false), [Rd(R, i.a1), Int(Signed(i.a3))], i.a1, st)
       case Raise(w) => Raise(w)
       case Ok(st') => Ok(Store(Store(st', i.a0, Rd(R, i.a1)), i.a1, Rd(st'.regs, i.a1))))
    case INC => Apply(cx, Prim(INC, Signed(i.a3), i.a1 == 0), [Rd(R, i.a1), Rd(R, i.a2)], i.a0, st)
    case PINC => Apply(cx, Prim(PINC, Signed(i.a3), i.a1 == 0), [Rd(R, i.a1), Rd(R, i.a2)], i.a0, st)
    case COMPARITH =>
      Apply(cx, Prim(COMPARITH, i.a3, High(i.a1) == 0), [Rd(R, High(i.a1)), Rd(R, i.a2), Rd(R, Low(i.a1))], i.a0, st)
    case NEWOBJ => Apply(cx, Prim(NEWOBJ, i.a3, false), [], i.a0, st)
    case APPENDARRAY =>
      (match cx.prims.apply(Prim(APPENDARRAY, 0, false), [Rd(R, i.a0), AppendOperand(cx.lits, R, i)], st.w)
       case Threw(w) => Raise(w)
       case Done(_, w) => Ok(st.(w := w)))
    case _ =>
      if Binary(i.op) then Apply(cx, Prim(i.op, i.a3, false), [Rd(R, i.a2), Rd(R, i.a1)], i.a0, st)
      else Apply(cx, Prim(i.op, 0, false), [Rd(R, i.a1)], i.a0, st)
  }

  /** Two registers packed in one operand. */
  function High(x: int): int { (x / 0x1_0000) % 0x1_0000 }
  function Low(x: int): int { x % 0x1_0000 }

  /** The second operand of a comparison is a literal when the fourth operand is set. */
  function EqOperand(cx: Context, i: Instr, regs: Regs): Val {
    if i.a3 != 0 then Lit(cx.lits, i.a1) else Rd(regs, i.a1)
  }

  /** Look up the method `key`, then store the receiver, then the method. */
  function Prepare(cx: Context, key: Val, i: Instr, st: State): Outcome {
    match cx.prims.apply(Prim(GET, 0, i.a2 == 0), [Rd(st.regs, i.a2), key], st.w)
    case Threw(w) => Raise(w)
    case Done(v, w) => Ok(Store(Store(st, i.a3, Rd(st.regs, i.a2)), i.a0, v).(w := w))
  }

  // --- running code

  datatype Conf = At(pc: int, st: State) | Raised(w: World) | Returned(v: Val, w: World)

  function Step(cx: Context, c: Conf): Conf {
    match c
    case At(pc, st) =>
      if !(0 <= pc < |cx.code|) then c
      else
        var i := cx.code[pc];
        if Straight(i.op) then
          (match Effect(cx, i, st)
           case Ok(st') => At(pc + 1, st')
           case Raise(w) => Raised(w))
        else Branch(cx, i, pc, st)
    case _ => c
  }

  /** The program counter has moved past the instruction before a jump offset is added to it. */
  function Branch(cx: Context, i: Instr, pc: int, st: State): Conf {
    match i.op
    case JMP => At(pc + 1 + i.a1, st)
    case JZ => At(if IsFalse(Rd(st.regs, i.a0)) then pc + 1 + i.a1 else pc + 1, st)
    case JCMP =>
      (match cx.prims.apply(Prim(CMP, i.a3, false), [Rd(st.regs, i.a2), Rd(st.regs, i.a0)], st.w)
       case Threw(w) => Raised(w)
       case Done(v, w) => At(if IsFalse(v) then pc + 1 + i.a1 else pc + 1, st.(w := w)))
    case AND =>
      if IsFalse(Rd(st.regs, i.a2)) then At(pc + 1 + i.a1, Store(st, i.a0, Rd(st.regs, i.a2)))
      else At(pc + 1, st)
    case OR =>
      if !IsFalse(Rd(st.regs, i.a2)) then At(pc + 1 + i.a1, Store(st, i.a0, Rd(st.regs, i.a2)))
      else At(pc + 1, st)
    case _ => Returned(if i.a0 == 0xFF then Null else Rd(st.regs, i.a1), st.w)
  }

  function Run(cx: Context, c: Conf, n: nat): Conf
    decreases n
  {
    if n == 0 then c else Run(cx, Step(cx, c), n - 1)
  }

  /** `d` is the configuration some number, at least `m`, of steps after `c`. */
  ghost predicate Reach(cx: Context, c: Conf, d: Conf, m: nat := 0) {
    exists n: nat :: n >= m && Run(cx, c, n) == d
  }

  lemma {:induction false} RunAdd(cx: Context, c: Conf, m: nat, n: nat)
    ensures Run(cx, c, m + n) == Run(cx, Run(cx, c, m), n)
    decreases m
  {
    if m > 0 {
      RunAdd(cx, Step(cx, c), m - 1, n);
    }
  }

  lemma ReachTrans(cx: Context, a: Conf, b: Conf, c: Conf, m: nat, n: nat)
    requires Reach(cx, a, b, m) && Reach(cx, b, c, n)
    ensures Reach(cx, a, c, m + n)
  {
    var i: nat :| i >= m && Run(cx, a, i) == b;
    var j: nat :| j >= n && Run(cx, b, j) == c;
    RunAdd(cx, a, i, j);
    assert Run(cx, a, i + j) == c;
  }

  lemma ReachRefl(cx: Context, a: Conf)
    ensures Reach(cx, a, a)
  {
    assert Run(cx, a, 0) == a;
  }

  lemma ReachStep(cx: Context, a: Conf)
    ensures Reach(cx, a, Step(cx, a), 1)
  {
    assert Run(cx, a, 1) == Run(cx, Step(cx, a), 0);
  }

  lemma ReachWeaken(cx: Context, a: Conf, b: Conf, m: nat, n: nat)
    requires Reach(cx, a, b, m) && n <= m
    ensures Reach(cx, a, b, n)
  {
  }
}
