/** The code of an expression computes it: by induction on the expression, running the emitted code makes
    the registers follow the source semantics, and never touches a register below the starting stack
    size that is not an assigned local variable. */
module ExprSim {
  import opened Bytecode
  import opened FuncState
  import opened Source
  import opened CodeGen
  import opened Peephole
  import opened Simulation
  import opened Layout

  /** The local variables are where they belong. */
  ghost predicate Locals(regs: Regs, env: seq<Val>) {
    forall r :: 0 <= r < |env| ==> Rd(regs, r) == env[r]
  }

  /** Temporaries in use are untouched. */
  ghost predicate Kept(before: Regs, after: Regs, lo: int, hi: int) {
    forall r :: lo <= r < hi ==> Rd(after, r) == Rd(before, r)
  }

  /** Where an operand's value is: in its variable, or in the fresh register `n`. */
  ghost predicate Holds(o: Operand, regs: Regs, t: int, n: int, nl: int) {
    match o
    case InLocal(r) => t == r && 0 <= r < nl
    case Value(v) => t == n && Rd(regs, n) == v
  }

  /** From outcome `o`, code that evaluates to `res` into register `t` ends with outcome `o'`. */
  ghost predicate Yields(o: Outcome, o': Outcome, res: EvalResult, t: int, n: int, nl: int) {
    match res
    case EThrow(w) => o' == Raise(w)
    case EOk(opd, env, w) =>
      && o.Ok? && o'.Ok? && o'.st.w == w
      && Locals(o'.st.regs, env) && Kept(o.st.regs, o'.st.regs, nl, n)
      && Holds(opd, o'.st.regs, t, n, nl)
  }

  /** Evaluation after an outcome: an exception stays. */
  function EvalAfter(pr: Prims, e: Expr, scope: seq<Slot>, env: seq<Val>, o: Outcome): (res: EvalResult)
    ensures res.EOk? ==> |res.env| == |env|
  {
    match o
    case Raise(w) => EThrow(w)
    case Ok(st) => Eval(pr, e, scope, env, st.w)
  }

  ghost predicate Ran(cx: Context, fs: FState, c0: Conf, o: Outcome, scope: seq<Slot>, env: seq<Val>) {
    && Start(fs, scope) && |env| == |scope|
    && Arrive(cx, fs, c0, o)
    && (o.Ok? ==> Locals(o.st.regs, env))
  }

  lemma OperandValue(o: Operand, regs: Regs, t: int, n: int, env: seq<Val>)
    requires Holds(o, regs, t, n, |env|) && Locals(regs, env) && 0 < |env| <= n
    ensures Rd(regs, t) == Deref(o, env)
    ensures t == 0 <==> o == This
  {
  }

  /** A later expression moves nothing that an earlier one left in a register. */
  lemma HoldsLater(o: Operand, before: Regs, after: Regs, t: int, n: int, nl: int, m: int)
    requires Holds(o, before, t, n, nl) && Kept(before, after, nl, m) && nl <= n
    requires o.Value? ==> n < m
    ensures Holds(o, after, t, n, nl)
  {
  }

  lemma TargetRange(fs: FState, fs1: FState, scope: seq<Slot>)
    requires Start(fs, scope) && One(fs, fs1) && Start(fs1, scope)
    ensures 0 <= Top(fs1) < |scope| || Top(fs1) == |fs.vlocals|
    ensures Fits(fs1) ==> Top(fs1) < 0xFF && |fs1.vlocals| <= 0xFF
    ensures 0 <= Top(fs1)
  {
  }

  lemma AgreeSub(cx: Context, mid: FState, fs': FState, lo: nat)
    requires Extends(mid, fs') && mid.lits <= fs'.lits && Agree(cx, fs', lo)
    ensures Agree(cx, mid, lo)
  {
  }

  lemma AgreeFrom(cx: Context, fs: FState, lo: nat, lo': nat)
    requires Agree(cx, fs, lo) && lo <= lo'
    ensures Agree(cx, fs, lo')
  {
  }

  lemma AgreeSplit(cx: Context, fs: FState, mid: FState, fs': FState, scope: seq<Slot>)
    requires Laid(fs, mid, scope) && Laid(mid, fs', scope) && Agree(cx, fs', Frontier(fs))
    ensures Agree(cx, mid, Frontier(fs)) && Agree(cx, fs', Frontier(mid))
  {
  }

  // --- one instruction into a fresh register

  lemma SimResult(cx: Context, p: FState, op: Op, a1: int, a2: int, a3: int, scope: seq<Slot>, c0: Conf, o: Outcome)
    returns (o': Outcome)
    requires Start(p, scope) && Straight(op) && Fits(Result(p, op, a1, a2, a3))
    requires Agree(cx, Result(p, op, a1, a2, a3), Frontier(p)) && Arrive(cx, p, c0, o)
    requires Dead(Ins(op, |p.vlocals|, a1, a2, a3), |scope|, |p.vlocals|)
    ensures Arrive(cx, Result(p, op, a1, a2, a3), c0, o') && |p.vlocals| < 0xFF
    ensures o.Raise? ==> o' == o
    ensures o.Ok? ==>
      var i := Ins(op, |p.vlocals|, a1, a2, a3);
      Below(o', Effect(cx, i, o.st), i, |p.vlocals|) && i.a0 == |p.vlocals|
  {
    hide Effect;
    var q := PushTemp(p);
    SameCodeArrive(cx, p, q, c0, o);
    var i := Ins(op, |p.vlocals|, a1, a2, a3);
    o' := AddArrive(cx, q, i, c0, o, |scope|, |p.vlocals|);
  }

  lemma SameCodeArrive(cx: Context, p: FState, q: FState, c0: Conf, o: Outcome)
    requires Arrive(cx, p, c0, o) && q.code == p.code && q.opt == p.opt
    ensures Arrive(cx, q, c0, o)
  {
    hide Effect;
    if !(o.Raise? && Reach(cx, c0, Raised(o.w))) {
      var st :| ArriveVia(cx, p, c0, o, st);
      assert ArriveVia(cx, q, c0, o, st);
    }
  }

  /** What an instruction leaves in register `n` is the value of `res`; registers below are untouched. */
  ghost predicate Produces(out: Outcome, res: EvalResult, st: State, n: int, env: seq<Val>) {
    match res
    case EThrow(w) => out == Raise(w)
    case EOk(opd, env', w) =>
      && out.Ok? && out.st.w == w && env' == env && opd.Value?
      && Rd(out.st.regs, n) == opd.v
      && forall r :: 0 <= r < n ==> Rd(out.st.regs, r) == Rd(st.regs, r)
  }

  lemma Conclude(o: Outcome, ox: Outcome, o': Outcome, out: Outcome, i: Instr, res: EvalResult, n: int, env: seq<Val>)
    requires o.Ok? && ox.Ok? && Locals(ox.st.regs, env) && Kept(o.st.regs, ox.st.regs, |env|, n) && |env| <= n
    requires Below(o', out, i, n) && Writes(i, n) && Produces(out, res, ox.st, n, env)
    ensures Yields(o, o', res, n, n, |env|)
  {
  }

  // --- constants, unary and binary operators

  lemma SimConst(cx: Context, v: Val, fs: FState, scope: seq<Slot>, env: seq<Val>, c0: Conf,
      o: Outcome) returns (o': Outcome)
    requires Ran(cx, fs, c0, o, scope, env) && Fits(CompConst(v, fs)) && Agree(cx, CompConst(v, fs), Frontier(fs))
      && Constant(v)
    ensures Arrive(cx, CompConst(v, fs), c0, o')
    ensures Yields(o, o', EvalAfter(cx.prims, Const(v), scope, env, o), |fs.vlocals|, |fs.vlocals|, |scope|)
  {
    var n := |fs.vlocals|;
    match v {
      case Null => o' := SimLoad(cx, LOADNULLS, 1, v, fs, scope, env, c0, o);
      case Int(k) =>
        if Immediate(k) {
          o' := SimLoad(cx, LOADINT, k, v, fs, scope, env, c0, o);
        } else {
          o' := SimLiteral(cx, v, fs, scope, env, c0, o);
        }
      case Bool(b) => o' := SimLoad(cx, LOADBOOL, if b then 1 else 0, v, fs, scope, env, c0, o);
      case Float(bits) => o' := SimLoad(cx, LOADFLOAT, bits, v, fs, scope, env, c0, o);
      case _ => o' := SimLiteral(cx, v, fs, scope, env, c0, o);
    }
  }

  predicate Loads(cx: Context, op: Op, a1: int, v: Val) {
    match op
    case LOADNULLS => v == Null && a1 == 1
    case LOADINT => v == Int(a1)
    case LOADFLOAT => v == Float(a1)
    case LOADBOOL => v == Bool(a1 != 0)
    case LOAD => v == Lit(cx.lits, a1) && a1 >= 0
    case _ => false
  }

  lemma SimLoad(cx: Context, op: Op, a1: int, v: Val, p: FState, scope: seq<Slot>, env: seq<Val>, c0: Conf, o: Outcome)
    returns (o': Outcome)
    requires Ran(cx, p, c0, o, scope, env) && Loads(cx, op, a1, v)
    requires Fits(Result(p, op, a1)) && Agree(cx, Result(p, op, a1), Frontier(p))
    ensures Arrive(cx, Result(p, op, a1), c0, o')
    ensures Yields(o, o', EvalAfter(cx.prims, Const(v), scope, env, o), |p.vlocals|, |p.vlocals|, |scope|)
  {
    var n := |p.vlocals|;
    assert Straight(op);
    var i := Ins(op, n, a1);
    o' := SimResult(cx, p, op, a1, 0, 0, scope, c0, o);
    if o.Ok? {
      LoadEffect(cx, op, a1, v, n, o.st);
      Conclude(o, o, o', Effect(cx, i, o.st), i, EOk(Value(v), env, o.st.w), n, env);
    }
  }

  lemma LoadEffect(cx: Context, op: Op, a1: int, v: Val, n: int, st: State)
    requires Loads(cx, op, a1, v) && 0 <= n < 255 && Straight(op)
    ensures Produces(Effect(cx, Ins(op, n, a1), st), EOk(Value(v), [], st.w), st, n, [])
    ensures forall env :: Produces(Effect(cx, Ins(op, n, a1), st), EOk(Value(v), env, st.w), st, n, env)
  {
  }

  lemma SimLiteral(cx: Context, v: Val, fs: FState, scope: seq<Slot>, env: seq<Val>, c0: Conf,
      o: Outcome) returns (o': Outcome)
    requires Ran(cx, fs, c0, o, scope, env) && Fits(LoadLiteral(fs, v)) && Agree(cx, LoadLiteral(fs, v), Frontier(fs))
    ensures Arrive(cx, LoadLiteral(fs, v), c0, o')
    ensures Yields(o, o', EvalAfter(cx.prims, Const(v), scope, env, o), |fs.vlocals|, |fs.vlocals|, |scope|)
  {
    var p := AddLiteral(fs, v);
    SameCodeArrive(cx, fs, p, c0, o);
    var k := IndexOf(fs.lits, v);
    assert p.lits[k] == v && p.lits <= LoadLiteral(fs, v).lits <= cx.lits;
    o' := SimLoad(cx, LOAD, k, v, p, scope, env, c0, o);
  }

  lemma SimUnary(cx: Context, op: Op, fs1: FState, fs: FState, scope: seq<Slot>, env: seq<Val>, c0: Conf, o: Outcome,
      o1: Outcome,
    r1: EvalResult) returns (o': Outcome)
    requires Start(fs, scope) && One(fs, fs1) && Ran(cx, fs1, c0, o1, scope, if r1.EOk? then r1.env else env)
    requires Yields(o, o1, r1, Top(fs1), |fs.vlocals|, |scope|)
    requires op == NOT || Bytecode.Unary(op)
    requires Fits(UnaryEnd(op, fs1, fs)) && Agree(cx, UnaryEnd(op, fs1, fs), Frontier(fs1))
    ensures Arrive(cx, UnaryEnd(op, fs1, fs), c0, o')
    ensures Yields(o, o', UnaryMeaning(cx.prims, op, r1), |fs.vlocals|, |fs.vlocals|, |scope|)
  {
    hide Effect, Pop, Add, Rd;
    var n, t := |fs.vlocals|, Top(fs1);
    PopOne(fs, fs1);
    LayPop(fs, fs1, scope);
    TargetRange(fs, fs1, scope);
    SameCodeArrive(cx, fs1, Pop(fs1), c0, o1);
    var i := Ins(op, n, t);
    o' := SimResult(cx, Pop(fs1), op, t, 0, 0, scope, c0, o1);
    if r1.EOk? {
      OperandValue(r1.o, o1.st.regs, t, n, r1.env);
      UnaryEffect(cx, op, t, n, o1.st, r1);
      Conclude(o, o1, o', Effect(cx, i, o1.st), i, UnaryMeaning(cx.prims, op, r1), n, r1.env);
    }
  }

  function UnaryMeaning(pr: Prims, op: Op, r1: EvalResult): EvalResult {
    match r1
    case EThrow(_) => r1
    case EOk(a, env, w) =>
      if op == NOT then EOk(Value(Bool(IsFalse(Deref(a, env)))), env, w)
      else Effect1(pr, Prim(op, 0, false), [Deref(a, env)], env, w)
  }

  lemma UnaryEffect(cx: Context, op: Op, t: int, n: int, st: State, r1: EvalResult)
    requires op == NOT || Bytecode.Unary(op)
    requires r1.EOk? && Rd(st.regs, t) == Deref(r1.o, r1.env) && r1.w == st.w && 0 <= n < 255
    ensures Produces(Effect(cx, Ins(op, n, t), st), UnaryMeaning(cx.prims, op, r1), st, n, r1.env)
  {
  }

  function BinMeaning(pr: Prims, op: Op, imm: int, r1: EvalResult, r2: EvalResult): EvalResult {
    match (r1, r2)
    case (EOk(a, _, _), EOk(b, env, w)) => EvalBin(pr, op, imm, Deref(a, env), Deref(b, env), env, w)
    case (EThrow(_), _) => r1
    case _ => r2
  }

  lemma BinEffect(cx: Context, op: Op, imm: int, t1: int, t2: int, n: int, st: State, a: Val, b: Val, env: seq<Val>)
    requires (op in {EQ, NE} && imm == 0) || Binary(op)
    requires Rd(st.regs, t1) == a && Rd(st.regs, t2) == b && 0 <= n < 255 && 0 <= t1 < 255 && 0 <= imm < 256
    ensures Produces(Effect(cx, Ins(op, n, t2, t1, imm), st), EvalBin(cx.prims, op, imm, a, b, env, st.w), st, n, env)
  {
  }

  lemma SimBin(cx: Context, op: Op, imm: int, fs2: FState, fs1: FState, fs: FState, scope: seq<Slot>, env: seq<Val>,
      c0: Conf,
    o: Outcome, o1: Outcome, o2: Outcome, r1: EvalResult, r2: EvalResult) returns (o': Outcome)
    requires Start(fs, scope) && One(fs, fs1) && Start(fs1, scope) && One(fs1, fs2) && 0 <= imm < 256
    requires (op in {EQ, NE} && imm == 0) || Binary(op)
    requires Yields(o, o1, r1, Top(fs1), |fs.vlocals|, |scope|)
    requires Yields(o1, o2, r2, Top(fs2), |fs1.vlocals|, |scope|) && (r1.EThrow? ==> r2 == r1)
    requires Ran(cx, fs2, c0, o2, scope, env) && (r2.EOk? ==> env == r2.env)
    requires Fits(BinEnd(op, imm, fs2, fs1, fs)) && Agree(cx, BinEnd(op, imm, fs2, fs1, fs), Frontier(fs2))
    ensures Arrive(cx, BinEnd(op, imm, fs2, fs1, fs), c0, o')
    ensures Yields(o, o', BinMeaning(cx.prims, op, imm, r1, r2), |fs.vlocals|, |fs.vlocals|, |scope|)
  {
    hide Effect, Add, Fuse, FuseLast, Arrive, Dead, Result, DestSafe, Agree, Rd, Produces, Below, EvalBin, Pop, Locals,
      Holds, Frontier, Deref, BinEnd;
    var n, t1, t2 := |fs.vlocals|, Top(fs1), Top(fs2);
    PopTwo(fs, fs1, fs2);
    LayPop2(fs, fs1, fs2, scope);
    var p := Pop(Pop(fs2));
    BinStart(cx, op, imm, fs2, fs1, fs, scope, c0, o2);
    o' := SimResult(cx, p, op, t2, t1, imm, scope, c0, o2);
    if r2.EOk? {
      BinValues(o, o1, o2, r1, r2, t1, t2, fs1, fs, |scope|, env);
      BinEffect(cx, op, imm, t1, t2, n, o2.st, Deref(r1.o, r2.env), Deref(r2.o, r2.env), r2.env);
      var i := Ins(op, n, t2, t1, imm);
      Conclude(o, o2, o', Effect(cx, i, o2.st), i, BinMeaning(cx.prims, op, imm, r1, r2), n, r2.env);
    }
  }

  lemma BinStart(cx: Context, op: Op, imm: int, fs2: FState, fs1: FState, fs: FState, scope: seq<Slot>, c0: Conf,
      o2: Outcome)
    requires Start(fs, scope) && One(fs, fs1) && Start(fs1, scope) && One(fs1, fs2) && Start(fs2, scope)
    requires (op in {EQ, NE} && imm == 0) || Binary(op)
    requires Fits(BinEnd(op, imm, fs2, fs1, fs)) && Arrive(cx, fs2, c0, o2)
    ensures 0 <= Top(fs2) < |fs2.vlocals| && |Pop(fs2).targets| > 0 && 0 <= Top(Pop(fs2)) < |Pop(fs2).vlocals|
    ensures var p := Pop(Pop(fs2));
      && Arrive(cx, p, c0, o2) && Start(p, scope) && p.vlocals == fs.vlocals && Frontier(p) == Frontier(fs2)
      && Top(Pop(fs2)) == Top(fs1) && BinEnd(op, imm, fs2, fs1, fs) == Result(p, op, Top(fs2), Top(fs1), imm)
    ensures Dead(Ins(op, |fs.vlocals|, Top(fs2), Top(fs1), imm), |scope|, |fs.vlocals|) && Straight(op)
      && 0 <= Top(fs1) < 255
  {
    hide Effect, Add, Fuse, FuseLast, Arrive, Dead, Result, Shape;
    PopTwo(fs, fs1, fs2);
    BinDead(op, imm, fs2, fs1, fs, scope);
    SameCodeArrive(cx, fs2, Pop(Pop(fs2)), c0, o2);
    LayPop2(fs, fs1, fs2, scope);
  }

  lemma BinDead(op: Op, imm: int, fs2: FState, fs1: FState, fs: FState, scope: seq<Slot>)
    requires Start(fs, scope) && One(fs, fs1) && Start(fs1, scope) && One(fs1, fs2) && Start(fs2, scope)
    requires (op in {EQ, NE} && imm == 0) || Binary(op)
    requires Fits(BinEnd(op, imm, fs2, fs1, fs))
    ensures Dead(Ins(op, |fs.vlocals|, Top(fs2), Top(fs1), imm), |scope|, |fs.vlocals|) && Straight(op)
      && 0 <= Top(fs1) < 255
  {
    hide Add, Fuse, FuseLast, Pop;
    TargetRange(fs, fs1, scope);
    TargetRange(fs1, fs2, scope);
    PopTwo(fs, fs1, fs2);
    assert Fits(fs2) && Fits(fs1);
  }

  lemma RanParts(cx: Context, fs: FState, c0: Conf, o: Outcome, scope: seq<Slot>, env: seq<Val>)
    requires Ran(cx, fs, c0, o, scope, env)
    ensures Start(fs, scope) && |env| == |scope| && 0 < |scope| <= |fs.vlocals| && Arrive(cx, fs, c0, o)
    ensures o.Ok? ==> Locals(o.st.regs, env)
  {
  }

  lemma BinValues(o: Outcome, o1: Outcome, o2: Outcome, r1: EvalResult, r2: EvalResult, t1: int, t2: int, fs1: FState,
      fs: FState,
    nl: int, env: seq<Val>)
    requires One(fs, fs1) && t1 == Top(fs1) && |env| == nl && 0 < nl <= |fs.vlocals|
    requires Yields(o, o1, r1, t1, |fs.vlocals|, nl) && Yields(o1, o2, r2, t2, |fs1.vlocals|, nl)
    requires r1.EOk? && r2.EOk? && r2.env == env
    ensures o.Ok? && o2.Ok? && o2.st.w == r2.w && Locals(o2.st.regs, env)
      && Kept(o.st.regs, o2.st.regs, nl, |fs.vlocals|)
    ensures Rd(o2.st.regs, t1) == Deref(r1.o, env) && Rd(o2.st.regs, t2) == Deref(r2.o, env)
    ensures (t1 == 0 <==> r1.o == This) && (t2 == 0 <==> r2.o == This)
  {
  }

  // --- places

  function PlaceAfter(pr: Prims, p: Place, scope: seq<Slot>, env: seq<Val>, o: Outcome): (res: PlaceResult)
    ensures res.FieldPlace? ==> |res.env| == |env|
  {
    match o
    case Raise(w) => PThrow(w)
    case Ok(st) => EvalPlace(pr, p, scope, env, st.w)
  }

  /** A place is a variable, for which nothing ran, or its object and key are in two targets. */
  ghost predicate PlaceYields(o: Outcome, o': Outcome, res: PlaceResult, pc: PlaceCode, n: int, nl: int, env: seq<Val>)
    requires |pc.fs.targets| > 0 && (pc.FieldCode? ==> |pc.mid.targets| > 0)
  {
    match res
    case PThrow(w) => o' == Raise(w)
    case LocalPlace(r) => o.Ok? && o' == o && pc.LocalCode? && Top(pc.fs) == r && 0 <= r < nl
    case FieldPlace(a, k, env', w) =>
      && pc.FieldCode? && o.Ok? && o'.Ok? && o'.st.w == w
      && Locals(o'.st.regs, env') && Kept(o.st.regs, o'.st.regs, nl, n)
      && Holds(a, o'.st.regs, Top(pc.mid), n, nl) && Holds(k, o'.st.regs, Top(pc.fs), |pc.mid.vlocals|, nl)
  }

  /** An effect on an object and a key: a read, or an increment in place. */
  function FieldMeaning(pr: Prims, op: Op, imm: int, res: PlaceResult): EvalResult {
    match res
    case FieldPlace(a, k, env, w) => Effect1(pr, Prim(op, imm, a == This), [Deref(a, env), Deref(k, env)], env, w)
    case PThrow(w) => EThrow(w)
    case LocalPlace(_) => EThrow(0)
  }

  lemma FieldEffect(cx: Context, op: Op, imm: int, t1: int, t2: int, n: int, st: State, a: Operand, k: Operand,
      env: seq<Val>)
    requires (op == GET && imm == 0) || (op in {INC, PINC} && imm in {-1, 1})
    requires Rd(st.regs, t1) == Deref(a, env) && Rd(st.regs, t2) == Deref(k, env) && (t1 == 0 <==> a == This)
    requires 0 <= n < 255 && 0 <= t1 < 255 && 0 <= t2 < 255
    ensures Produces(Effect(cx, Ins(op, n, t1, t2, imm), st),
      FieldMeaning(cx.prims, op, imm, FieldPlace(a, k, env, st.w)), st, n, env)
  {
  }

  lemma SimResult2(cx: Context, op: Op, imm: int, pc: PlaceCode, fs: FState, scope: seq<Slot>, env: seq<Val>, c0: Conf,
    o: Outcome, o2: Outcome, res: PlaceResult) returns (o': Outcome)
    requires Start(fs, scope) && PlacePushed(fs, pc) && pc.FieldCode? && Start(pc.mid, scope)
    requires (op == GET && imm == 0) || (op in {INC, PINC} && imm in {-1, 1})
    requires PlaceYields(o, o2, res, pc, |fs.vlocals|, |scope|, env) && !res.LocalPlace?
    requires Ran(cx, pc.fs, c0, o2, scope, env) && (res.FieldPlace? ==> env == res.env)
    requires Fits(Result2(op, imm, pc.mid, pc.fs, fs))
      && Agree(cx, Result2(op, imm, pc.mid, pc.fs, fs), Frontier(pc.fs))
    ensures Arrive(cx, Result2(op, imm, pc.mid, pc.fs, fs), c0, o')
    ensures Yields(o, o', FieldMeaning(cx.prims, op, imm, res), |fs.vlocals|, |fs.vlocals|, |scope|)
  {
    hide Effect, Add, Fuse, FuseLast, Arrive, Dead, Result, DestSafe, Agree, Rd, Produces, Below, Pop, Locals, Holds,
      Frontier, Deref, Result2;
    var mid, fs2 := pc.mid, pc.fs;
    var n, t1, t2 := |fs.vlocals|, Top(mid), Top(fs2);
    PopTwo(fs, mid, fs2);
    LayPop2(fs, mid, fs2, scope);
    var p := Pop(Pop(fs2));
    FieldStart(cx, op, imm, fs2, mid, fs, scope, c0, o2);
    o' := SimResult(cx, p, op, t1, t2, imm, scope, c0, o2);
    if res.FieldPlace? {
      OperandValue(res.o, o2.st.regs, t1, n, env);
      OperandValue(res.k, o2.st.regs, t2, |mid.vlocals|, env);
      FieldEffect(cx, op, imm, t1, t2, n, o2.st, res.o, res.k, env);
      var i := Ins(op, n, t1, t2, imm);
      Conclude(o, o2, o', Effect(cx, i, o2.st), i, FieldMeaning(cx.prims, op, imm, res), n, env);
    }
  }

  lemma FieldStart(cx: Context, op: Op, imm: int, fs2: FState, mid: FState, fs: FState, scope: seq<Slot>, c0: Conf,
      o2: Outcome)
    requires Start(fs, scope) && One(fs, mid) && Start(mid, scope) && One(mid, fs2) && Start(fs2, scope)
    requires op in {GET, INC, PINC} && Fits(Result2(op, imm, mid, fs2, fs)) && Arrive(cx, fs2, c0, o2)
    ensures 0 <= Top(fs2) < |fs2.vlocals| && |Pop(fs2).targets| > 0 && 0 <= Top(Pop(fs2)) < |Pop(fs2).vlocals|
    ensures var p := Pop(Pop(fs2));
      && Arrive(cx, p, c0, o2) && Start(p, scope) && p.vlocals == fs.vlocals && Frontier(p) == Frontier(fs2)
      && Top(Pop(fs2)) == Top(mid) && Result2(op, imm, mid, fs2, fs) == Result(p, op, Top(mid), Top(fs2), imm)
    ensures Dead(Ins(op, |fs.vlocals|, Top(mid), Top(fs2), imm), |scope|, |fs.vlocals|) && Straight(op)
    ensures 0 <= Top(mid) < 255 && 0 <= Top(fs2) < 255
  {
    hide Effect, Add, Fuse, FuseLast, Arrive, Dead, Result, Shape;
    PopTwo(fs, mid, fs2);
    FieldDead(op, imm, fs2, mid, fs, scope);
    SameCodeArrive(cx, fs2, Pop(Pop(fs2)), c0, o2);
    LayPop2(fs, mid, fs2, scope);
  }

  lemma FieldDead(op: Op, imm: int, fs2: FState, mid: FState, fs: FState, scope: seq<Slot>)
    requires Start(fs, scope) && One(fs, mid) && Start(mid, scope) && One(mid, fs2) && Start(fs2, scope)
    requires op in {GET, INC, PINC} && Fits(Result2(op, imm, mid, fs2, fs))
    ensures Dead(Ins(op, |fs.vlocals|, Top(mid), Top(fs2), imm), |scope|, |fs.vlocals|) && Straight(op)
    ensures 0 <= Top(mid) < 255 && 0 <= Top(fs2) < 255
  {
    hide Add, Fuse, FuseLast, Pop;
    TargetRange(fs, mid, scope);
    TargetRange(mid, fs2, scope);
    PopTwo(fs, mid, fs2);
    assert Fits(fs2) && Fits(mid);
  }

  /** A store, or an operator applied in place, with the value `r3` just computed. */
  function StoreMeaning(pr: Prims, op: Op, imm: int, res: PlaceResult, r3: EvalResult): EvalResult {
    match (res, r3)
    case (FieldPlace(a, k, _, _), EOk(v, env, w)) =>
      if op == SET then
        (match pr.apply(Prim(SET, 0, a == This), [Deref(a, env), Deref(k, env), Deref(v, env)], w)
         case Threw(w') => EThrow(w')
         case Done(_, w') => EOk(Value(Deref(v, env)), env, w'))
      else Effect1(pr, Prim(op, imm, a == This), [Deref(a, env), Deref(k, env), Deref(v, env)], env, w)
    case _ => r3
  }

  lemma Packed(src: int, val: int)
    requires 0 <= src < 0x1_0000 && 0 <= val < 0x1_0000
    ensures High(src * 0x1_0000 + val) == src && Low(src * 0x1_0000 + val) == val
  {
  }

  lemma StoreEffect(cx: Context, op: Op, imm: int, t1: int, t2: int, t3: int, n: int, st: State, a: Operand,
      k: Operand, v: Operand,
    env: seq<Val>)
    requires op in {SET, COMPARITH} && 0 <= imm < 256
    requires Rd(st.regs, t1) == Deref(a, env) && Rd(st.regs, t2) == Deref(k, env) && Rd(st.regs, t3) == Deref(v, env)
    requires t1 == 0 <==> a == This
    requires 0 <= n < 255 && 0 <= t1 < 255 && 0 <= t2 < 255 && 0 <= t3 < 255
    ensures forall env0, w0 :: Produces(
      Effect(cx, if op == SET then Ins(SET, n, t1, t2, t3) else Ins(op, n, t1 * 0x1_0000 + t3, t2, imm), st),
      StoreMeaning(cx.prims, op, imm, FieldPlace(a, k, env0, w0), EOk(v, env, st.w)), st, n, env)
  {
    Packed(t1, t3);
  }

  lemma SimResult3(cx: Context, op: Op, imm: int, pc: PlaceCode, fs3: FState, fs: FState, scope: seq<Slot>,
      env: seq<Val>, c0: Conf,
    o: Outcome, o2: Outcome, o3: Outcome, res: PlaceResult, r3: EvalResult) returns (o': Outcome)
    requires Start(fs, scope) && PlacePushed(fs, pc) && pc.FieldCode? && Start(pc.mid, scope) && Start(pc.fs, scope)
    requires One(pc.fs, fs3) && op in {SET, COMPARITH} && 0 <= imm < 256
    requires PlaceYields(o, o2, res, pc, |fs.vlocals|, |scope|, env) && !res.LocalPlace?
    requires Yields(o2, o3, r3, Top(fs3), |pc.fs.vlocals|, |scope|) && (res.PThrow? ==> r3 == EThrow(res.w))
    requires Ran(cx, fs3, c0, o3, scope, env) && (r3.EOk? ==> env == r3.env)
    requires Fits(Result3(op, imm, pc.mid, pc.fs, fs3, fs))
      && Agree(cx, Result3(op, imm, pc.mid, pc.fs, fs3, fs), Frontier(fs3))
    ensures Arrive(cx, Result3(op, imm, pc.mid, pc.fs, fs3, fs), c0, o')
    ensures Yields(o, o', StoreMeaning(cx.prims, op, imm, res, r3), |fs.vlocals|, |fs.vlocals|, |scope|)
  {
    hide Effect, Add, Fuse, FuseLast, Arrive, Dead, Result, DestSafe, Agree, Rd, Produces, Below, Pop, Locals, Holds,
      Frontier, Deref, Result3;
    var mid, fs2 := pc.mid, pc.fs;
    var n, t1, t2, t3 := |fs.vlocals|, Top(mid), Top(fs2), Top(fs3);
    var p := StoreStart(cx, op, imm, fs3, fs2, mid, fs, scope, c0, o3);
    if op == SET {
      o' := SimResult(cx, p, SET, t1, t2, t3, scope, c0, o3);
    } else {
      o' := SimResult(cx, p, op, t1 * 0x1_0000 + t3, t2, imm, scope, c0, o3);
    }
    if r3.EOk? {
      StoreFinished(cx, op, imm, pc, fs3, fs, env, o, o2, o3, o', res, r3);
    }
  }

  function StoreInstr(op: Op, imm: int, n: int, t1: int, t2: int, t3: int): Instr {
    if op == SET then Ins(SET, n, t1, t2, t3) else Ins(op, n, t1 * 0x1_0000 + t3, t2, imm)
  }

  lemma StoreFinished(cx: Context, op: Op, imm: int, pc: PlaceCode, fs3: FState, fs: FState, env: seq<Val>,
    o: Outcome, o2: Outcome, o3: Outcome, o': Outcome, res: PlaceResult, r3: EvalResult)
    requires PlacePushed(fs, pc) && pc.FieldCode? && One(pc.fs, fs3) && 0 < |env| <= |fs.vlocals| < 255
    requires op in {SET, COMPARITH} && 0 <= imm < 256 && 0 <= Top(pc.mid) < 255 && 0 <= Top(pc.fs) < 255
      && 0 <= Top(fs3) < 255
    requires PlaceYields(o, o2, res, pc, |fs.vlocals|, |env|, env) && res.FieldPlace?
    requires Yields(o2, o3, r3, Top(fs3), |pc.fs.vlocals|, |env|) && r3.EOk? && r3.env == env && o3.Ok?
    requires var i := StoreInstr(op, imm, |fs.vlocals|, Top(pc.mid), Top(pc.fs), Top(fs3));
      Below(o', Effect(cx, i, o3.st), i, |fs.vlocals|)
    ensures Yields(o, o', StoreMeaning(cx.prims, op, imm, res, r3), |fs.vlocals|, |fs.vlocals|, |env|)
  {
    hide Effect, StoreMeaning, Rd, PlaceYields, Grown, Produces, Yields, Below, Kept, Locals, Deref;
    var n, t1, t2, t3 := |fs.vlocals|, Top(pc.mid), Top(pc.fs), Top(fs3);
    StoreValues(o, o2, o3, res, r3, pc, fs3, fs, |env|, env);
    StoreEffect(cx, op, imm, t1, t2, t3, n, o3.st, res.o, res.k, r3.o, env);
    Conclude(o, o3, o', Effect(cx, StoreInstr(op, imm, n, t1, t2, t3), o3.st), StoreInstr(op, imm, n, t1, t2, t3),
      StoreMeaning(cx.prims, op, imm, res, r3), n, env);
  }

  lemma StoreValues(o: Outcome, o2: Outcome, o3: Outcome, res: PlaceResult, r3: EvalResult, pc: PlaceCode, fs3: FState,
      fs: FState,
    nl: int, env: seq<Val>)
    requires PlacePushed(fs, pc) && pc.FieldCode? && One(pc.fs, fs3) && |env| == nl && 0 < nl <= |fs.vlocals|
    requires PlaceYields(o, o2, res, pc, |fs.vlocals|, nl, env) && res.FieldPlace?
    requires Yields(o2, o3, r3, Top(fs3), |pc.fs.vlocals|, nl) && r3.EOk? && r3.env == env
    ensures o.Ok? && o3.Ok? && o3.st.w == r3.w && Locals(o3.st.regs, env)
      && Kept(o.st.regs, o3.st.regs, nl, |fs.vlocals|)
    ensures Rd(o3.st.regs, Top(pc.mid)) == Deref(res.o, env) && Rd(o3.st.regs, Top(pc.fs)) == Deref(res.k, env)
    ensures Rd(o3.st.regs, Top(fs3)) == Deref(r3.o, env) && (Top(pc.mid) == 0 <==> res.o == This)
  {
  }

  lemma StoreStart(cx: Context, op: Op, imm: int, fs3: FState, fs2: FState, mid: FState, fs: FState, scope: seq<Slot>,
      c0: Conf,
    o3: Outcome) returns (p: FState)
    requires Start(fs, scope) && One(fs, mid) && Start(mid, scope) && One(mid, fs2) && Start(fs2, scope)
      && One(fs2, fs3)
    requires Start(fs3, scope) && op in {SET, COMPARITH} && Fits(Result3(op, imm, mid, fs2, fs3, fs))
      && Arrive(cx, fs3, c0, o3)
    ensures Arrive(cx, p, c0, o3) && Start(p, scope) && p.vlocals == fs.vlocals && Frontier(p) == Frontier(fs3)
    ensures 0 <= Top(mid) < 255 && 0 <= Top(fs2) < 255 && 0 <= Top(fs3) < 255
    ensures Result3(op, imm, mid, fs2, fs3, fs) ==
      if op == SET then Result(p, SET, Top(mid), Top(fs2), Top(fs3)) else Result(p, op, Top(mid) * 0x1_0000 + Top(fs3),
        Top(fs2), imm)
    ensures Dead(Ins(SET, |fs.vlocals|, Top(mid), Top(fs2), Top(fs3)), |scope|, |fs.vlocals|)
    ensures Dead(Ins(COMPARITH, |fs.vlocals|, Top(mid) * 0x1_0000 + Top(fs3), Top(fs2), imm), |scope|, |fs.vlocals|)
  {
    hide Effect, Fuse, FuseLast, Arrive, Result, Pop;
    PopThree(fs, mid, fs2, fs3);
    p := Pop(Pop(Pop(fs3)));
    TargetRange(fs, mid, scope);
    TargetRange(mid, fs2, scope);
    TargetRange(fs2, fs3, scope);
    assert Fits(fs3) && Fits(fs2) && Fits(mid);
    SameCodeArrive(cx, fs3, p, c0, o3);
  }

  // --- moves and assignments to local variables

  /** Register `dst` holds what `src` held; other registers below `n` are untouched. */
  ghost predicate Moved(before: State, after: State, dst: int, src: int, n: int) {
    && after.w == before.w && Rd(after.regs, dst) == Rd(before.regs, src)
    && forall r :: 0 <= r < n && r != dst ==> Rd(after.regs, r) == Rd(before.regs, r)
  }

  lemma SimMove(cx: Context, p: FState, dst: int, src: int, scope: seq<Slot>, c0: Conf,
      o: Outcome) returns (o': Outcome)
    requires Start(p, scope) && 0 <= dst < 255 && 0 <= src < 255 && (src < |scope| || src >= |p.vlocals|)
    requires Agree(cx, Add(p, Ins(MOVE, dst, src)), Frontier(p)) && Arrive(cx, p, c0, o)
    ensures Arrive(cx, Add(p, Ins(MOVE, dst, src)), c0, o')
    ensures o.Raise? ==> o' == o
    ensures o.Ok? ==> o'.Ok? && Moved(o.st, o'.st, dst, src, |p.vlocals|)
  {
    hide Add, Fuse, FuseLast, Arrive, Agree;
    var i := Ins(MOVE, dst, src);
    o' := AddArrive(cx, p, i, c0, o, |scope|, |p.vlocals|);
    if o.Ok? {
      assert Effect(cx, i, o.st) == Ok(Store(o.st, dst, Rd(o.st.regs, src)));
    }
  }

  lemma SimMoveUnless(cx: Context, p: FState, dst: int, src: int, scope: seq<Slot>, c0: Conf,
      o: Outcome) returns (o': Outcome)
    requires Start(p, scope) && 0 <= dst < 255 && 0 <= src < 255 && (src < |scope| || src >= |p.vlocals| || src == dst)
    requires Agree(cx, MoveUnless(p, dst, src), Frontier(p)) && Arrive(cx, p, c0, o)
    ensures Arrive(cx, MoveUnless(p, dst, src), c0, o')
    ensures o.Raise? ==> o' == o
    ensures o.Ok? ==> o'.Ok? && Moved(o.st, o'.st, dst, src, |p.vlocals|)
  {
    if dst == src {
      o' := o;
    } else {
      o' := SimMove(cx, p, dst, src, scope, c0, o);
    }
  }

  lemma SnoozeArrive(cx: Context, fs: FState, c0: Conf, o: Outcome)
    requires Agree(cx, Snooze(fs), Frontier(fs)) && Arrive(cx, fs, c0, o)
    ensures Arrive(cx, Snooze(fs), c0, o)
  {
    RunPending(cx, fs, c0, o);
    if o.Ok? {
      ArriveClosed(cx, Snooze(fs), c0, o.st);
    }
  }

  function AssignMeaning(r: int, r1: EvalResult): EvalResult {
    match r1
    case EThrow(_) => r1
    case EOk(a, env, w) => EOk(InLocal(r), SetLocal(env, r, Deref(a, env)), w)
  }

  lemma SimAssign(cx: Context, fs1: FState, fs0: FState, fs: FState, scope: seq<Slot>, env: seq<Val>, c0: Conf,
    o: Outcome, o1: Outcome, r: int, r1: EvalResult) returns (o': Outcome)
    requires Start(fs, scope) && fs0 == PushTarget(fs, r) && 0 <= r < |scope| && One(fs0, fs1)
    requires Yields(o, o1, r1, Top(fs1), |fs.vlocals|, |scope|)
    requires Ran(cx, fs1, c0, o1, scope, env) && (r1.EOk? ==> env == r1.env)
    requires Fits(fs1) && Agree(cx, AssignEnd(fs1, LocalCode(fs0), fs), Frontier(fs1))
    ensures Arrive(cx, AssignEnd(fs1, LocalCode(fs0), fs), c0, o')
    ensures Yields(o, o', AssignMeaning(r, r1), r, |fs.vlocals|, |scope|)
  {
    hide Add, Fuse, FuseLast, Arrive, Agree, Rd;
    PopOne(fs0, fs1);
    var p, t := Pop(fs1), Top(fs1);
    assert Start(fs0, scope);
    TargetRange(fs0, fs1, scope);
    LayPop(fs0, fs1, scope);
    SameCodeArrive(cx, fs1, p, c0, o1);
    assert Top(p) == r;
    o' := SimMove(cx, p, r, t, scope, c0, o1);
    if r1.EOk? {
      OperandValue(r1.o, o1.st.regs, t, |fs.vlocals|, env);
    }
  }

  function OpAssignMeaning(pr: Prims, op: Op, r: int, r1: EvalResult): EvalResult {
    match r1
    case EThrow(_) => r1
    case EOk(a, env, w) =>
      match pr.apply(Prim(op, 0, false), [Deref(InLocal(r), env), Deref(a, env)], w)
      case Threw(w') => EThrow(w')
      case Done(v, w') => EOk(InLocal(r), SetLocal(env, r, v), w')
  }

  predicate Arith(op: Op) {
    op in {ADD, SUB, MUL, DIV, MOD}
  }

  lemma OpAssignEffect(cx: Context, op: Op, r: int, t: int, st: State, a: Val, b: Val)
    requires Arith(op) && Rd(st.regs, r) == a && Rd(st.regs, t) == b && 0 <= r < 255
    ensures Effect(cx, Ins(op, r, t, r, 0), st) == match cx.prims.apply(Prim(op, 0, false), [a, b], st.w)
      case Threw(w) => Raise(w)
      case Done(v, w) => Ok(State(st.regs[r := v], w))
  {
  }

  lemma SimOpAssign(cx: Context, op: Op, fs1: FState, fs0: FState, fs: FState, scope: seq<Slot>, env: seq<Val>,
      c0: Conf,
    o: Outcome, o1: Outcome, r: int, r1: EvalResult) returns (o': Outcome)
    requires Start(fs, scope) && fs0 == PushTarget(fs, r) && 0 <= r < |scope| && PlacePushed(fs, LocalCode(fs0))
      && One(fs0, fs1)
    requires Yields(o, o1, r1, Top(fs1), |fs.vlocals|, |scope|) && Arith(op)
    requires Ran(cx, fs1, c0, o1, scope, env) && (r1.EOk? ==> env == r1.env)
    requires Fits(fs1) && Agree(cx, OpAssignEnd(op, fs1, LocalCode(fs0), fs), Frontier(fs1))
    ensures Arrive(cx, OpAssignEnd(op, fs1, LocalCode(fs0), fs), c0, o')
    ensures Yields(o, o', OpAssignMeaning(cx.prims, op, r, r1), r, |fs.vlocals|, |scope|)
  {
    hide Fuse, FuseLast, Arrive, Rd, Pop, Effect, Yields, Pending, OpAssignEnd, Grown;
    var t := Top(fs1);
    var q := OpAssignStart(cx, op, fs1, fs0, fs, scope, c0, o1, r);
    var i := Ins(op, r, t, r, 0);
    AddExtends(q, i);
    assert Agree(cx, Add(q, i), Frontier(q));
    o' := AddArrive(cx, q, i, c0, o1, |scope|, |fs.vlocals|);
    assert Agree(cx, Snooze(Add(q, i)), Frontier(Add(q, i)));
    SnoozeArrive(cx, Add(q, i), c0, o');
    OpAssignYields(cx, op, r, t, o, o1, o', r1, |fs.vlocals|, env);
  }

  lemma OpAssignStart(cx: Context, op: Op, fs1: FState, fs0: FState, fs: FState, scope: seq<Slot>, c0: Conf,
      o1: Outcome, r: int)
    returns (q: FState)
    requires Start(fs, scope) && fs0 == PushTarget(fs, r) && 0 <= r < |scope| && PlacePushed(fs, LocalCode(fs0))
      && One(fs0, fs1)
    requires Start(fs1, scope) && Arrive(cx, fs1, c0, o1) && Fits(fs1)
    ensures Arrive(cx, q, c0, o1) && Start(q, scope) && q.vlocals == fs.vlocals && Frontier(q) == Frontier(fs1)
      && 0 <= Top(fs1) < 255 && 0 <= r < 255
    ensures OpAssignEnd(op, fs1, LocalCode(fs0), fs) == Snooze(Add(q, Ins(op, r, Top(fs1), r, 0)))
  {
    hide Arrive, Add;
    PopTwo(fs, fs0, fs1);
    q := PushTarget(Pop(Pop(fs1)), r);
    assert Start(fs0, scope);
    TargetRange(fs0, fs1, scope);
    SameCodeArrive(cx, fs1, q, c0, o1);
  }

  lemma OpAssignYields(cx: Context, op: Op, r: int, t: int, o: Outcome, o1: Outcome, o': Outcome, r1: EvalResult,
      n: int, env: seq<Val>)
    requires Yields(o, o1, r1, t, n, |env|) && Arith(op) && 0 <= r < |env| <= n && r < 255
      && (r1.EOk? ==> env == r1.env)
    requires o1.Raise? ==> o' == o1
    requires o1.Ok? ==> Below(o', Effect(cx, Ins(op, r, t, r, 0), o1.st), Ins(op, r, t, r, 0), n)
    ensures Yields(o, o', OpAssignMeaning(cx.prims, op, r, r1), r, n, |env|)
  {
    hide Effect;
    if r1.EOk? {
      OperandValue(r1.o, o1.st.regs, t, n, env);
      OpAssignEffect(cx, op, r, t, o1.st, env[r], Deref(r1.o, env));
    }
  }

  function IncDecMeaning(pr: Prims, post: bool, diff: int, r: int, env: seq<Val>, o: Outcome): EvalResult {
    match o
    case Raise(w) => EThrow(w)
    case Ok(st) =>
      match pr.apply(Prim(ADD, 0, false), [Deref(InLocal(r), env), Int(diff)], st.w)
      case Threw(w) => EThrow(w)
      case Done(v, w) => EOk(if post then Value(Deref(InLocal(r), env)) else InLocal(r), SetLocal(env, r, v), w)
  }

  lemma SimIncDec(cx: Context, post: bool, diff: int, fs0: FState, fs: FState, scope: seq<Slot>, env: seq<Val>,
      c0: Conf,
    o: Outcome, r: int) returns (o': Outcome)
    requires Ran(cx, fs, c0, o, scope, env) && fs0 == PushTarget(fs, r) && 0 <= r < |scope|
      && PlacePushed(fs, LocalCode(fs0))
    requires diff in {-1, 1} && Fits(IncDecEnd(post, diff, LocalCode(fs0), fs))
    requires Agree(cx, IncDecEnd(post, diff, LocalCode(fs0), fs), Frontier(fs))
    ensures Arrive(cx, IncDecEnd(post, diff, LocalCode(fs0), fs), c0, o')
    ensures Yields(o, o', IncDecMeaning(cx.prims, post, diff, r, env, o), if post then |fs.vlocals| else r,
      |fs.vlocals|, |scope|)
  {
    hide Fuse, FuseLast, Arrive, Rd, Add, Agree, Effect;
    PopOne(fs, fs0);
    var n := |fs.vlocals|;
    if post {
      assert Pop(fs0) == fs;
      o' := SimResult(cx, fs, PINCL, r, 0, diff, scope, c0, o);
      if o.Ok? {
        IncDecEffect(cx, post, diff, r, n, o.st, env);
      }
    } else {
      SameCodeArrive(cx, fs, fs0, c0, o);
      o' := AddArrive(cx, fs0, Ins(INCL, r, r, 0, diff), c0, o, |scope|, n);
      if o.Ok? {
        IncDecEffect(cx, post, diff, r, n, o.st, env);
      }
    }
  }

  lemma IncDecEffect(cx: Context, post: bool, diff: int, r: int, n: int, st: State, env: seq<Val>)
    requires Locals(st.regs, env) && 0 <= r < |env| <= n <= 255 && (post ==> n < 255) && diff in {-1, 1}
    ensures var i := if post then Ins(PINCL, n, r, 0, diff) else Ins(INCL, r, r, 0, diff);
      forall o' :: Below(o', Effect(cx, i, st), i, n) ==>
        Yields(Ok(st), o', IncDecMeaning(cx.prims, post, diff, r, env, Ok(st)), if post then n else r, n, |env|)
  {
  }

  // --- short-circuit operators

  predicate Decides(op: Op, v: Val) {
    if op == AND then IsFalse(v) else !IsFalse(v)
  }

  function CircuitMeaning(pr: Prims, op: Op, r: Expr, scope: seq<Slot>, r1: EvalResult): EvalResult {
    match r1
    case EThrow(_) => r1
    case EOk(a, env, w) =>
      if Decides(op, Deref(a, env)) then EOk(Value(Deref(a, env)), env, w) else EvalValue(pr, r, scope, env, w)
  }

  /** The final code holds this instruction, with its jump patched by `d`. */
  ghost predicate PatchedAt(cx: Context, j: int, i: Instr, d: int) {
    0 <= j < |cx.code| && cx.code[j] == i.(a1 := d)
  }

  /** The test jumps to the end with its operand as the result, or falls through. */
  lemma SimTest(cx: Context, op: Op, fs1: FState, n: int, t: int, d: int, c0: Conf, o1: Outcome)
    requires op in {AND, OR} && 0 <= t < 255 && 0 <= n < 255 && Arrive(cx, fs1, c0, o1)
    requires PatchedAt(cx, |fs1.code|, Ins(op, n, 0, t, 0), d)
    requires Open(fs1) ==> cx.code[Frontier(fs1)] == Last(fs1.code)
    ensures o1.Raise? ==> Reach(cx, c0, Raised(o1.w))
    ensures o1.Ok? ==>
      var v := Rd(o1.st.regs, t);
      if Decides(op, v) then Reach(cx, c0, At(|fs1.code| + 1 + d, Store(o1.st, n, v))) else Reach(cx, c0,
        At(|fs1.code| + 1, o1.st))
  {
    hide Effect;
    RunPending(cx, fs1, c0, o1);
    if o1.Ok? {
      var c := At(|fs1.code|, o1.st);
      ReachStep(cx, c);
      ReachTrans(cx, c0, c, Step(cx, c), 0, 1);
      ReachWeaken(cx, c0, Step(cx, c), 1, 0);
    }
  }

  /** After the second operand: it is moved to the common register, and nothing stays pending. */
  lemma SimJoin(cx: Context, fs3: FState, before: FState, trg: int, scope: seq<Slot>, c0: Conf,
      o3: Outcome) returns (st: State)
    requires Start(before, scope) && Start(fs3, scope) && |before.targets| > 0 && Top(before) == trg && 0 <= trg < 255
      && One(before, fs3) && Fits(fs3)
    requires Arrive(cx, fs3, c0, o3)
    requires var s := Snooze(fs3); var u := Snooze(MoveUnless(Pop(s), trg, Top(fs3)));
      Agree(cx, u, Frontier(fs3))
    requires Top(fs3) != trg
    ensures var u := MoveUnless(Pop(Snooze(fs3)), trg, Top(fs3));
      && (o3.Raise? ==> Reach(cx, c0, Raised(o3.w)))
      && (o3.Ok? ==> Reach(cx, c0, At(|u.code|, st)) && Moved(o3.st, st, trg, Top(fs3), |before.vlocals|))
  {
    hide Effect, Fuse, Arrive;
    st := State(map[], 0);
    var s := Snooze(fs3);
    PopOne(before, s);
    TargetRange(before, fs3, scope);
    var m := Add(Pop(s), Ins(MOVE, trg, Top(fs3)));
    assert m.code == fs3.code + [Ins(MOVE, trg, Top(fs3))];
    SnoozeArrive(cx, fs3, c0, o3);
    SameCodeArrive(cx, s, Pop(s), c0, o3);
    var o4 := SimMove(cx, Pop(s), trg, Top(fs3), scope, c0, o3);
    RunPending(cx, m, c0, o4);
    if o3.Ok? {
      st := o4.st;
    }
  }

  // --- the induction

  /** What the simulation of an expression starts from. */
  ghost predicate Begins(cx: Context, e: Expr, fs: FState, scope: seq<Slot>, env: seq<Val>, c0: Conf, o: Outcome) {
    && Ready(fs) && Ran(cx, fs, c0, o, scope, env)
    && WellFormed(e) && Safe(e, LastIsCmp(fs), scope)
    && Fits(CompE(e, fs)) && Agree(cx, CompE(e, fs), Frontier(fs))
  }

  ghost predicate Computes(cx: Context, e: Expr, fs: FState, scope: seq<Slot>, env: seq<Val>, c0: Conf, o: Outcome,
      o': Outcome)
    requires Ready(fs)
  {
    && Arrive(cx, CompE(e, fs), c0, o')
    && Yields(o, o', EvalAfter(cx.prims, e, scope, env, o), Top(CompE(e, fs)), |fs.vlocals|, |scope|)
  }

  function EnvAfter(r: EvalResult, env: seq<Val>): (env': seq<Val>)
    ensures r.EOk? && |r.env| == |env| ==> |env'| == |env|
  {
    if r.EOk? then r.env else env
  }

  lemma RanAfter(cx: Context, e: Expr, fs: FState, scope: seq<Slot>, env: seq<Val>, c0: Conf, o: Outcome, o1: Outcome)
    requires Begins(cx, e, fs, scope, env, c0, o) && Computes(cx, e, fs, scope, env, c0, o, o1)
    ensures Ran(cx, CompE(e, fs), c0, o1, scope, EnvAfter(EvalAfter(cx.prims, e, scope, env, o), env))
    ensures o1.Raise? <==> EvalAfter(cx.prims, e, scope, env, o).EThrow?
    ensures Laid(fs, CompE(e, fs), scope)
    ensures LastIsCmp(CompE(e, fs)) <==> EndsCmp(e, LastIsCmp(fs), scope)
  {
    LayE(e, fs, scope);
  }

  lemma LaidStart(fs: FState, fs': FState, scope: seq<Slot>)
    requires Laid(fs, fs', scope)
    ensures Start(fs', scope)
  {
  }

  lemma UnaryParts(cx: Context, e: Expr, fs: FState, scope: seq<Slot>, env: seq<Val>, c0: Conf, o: Outcome)
    requires Begins(cx, e, fs, scope, env, c0, o) && e.Unary?
    ensures var fs1 := CompE(e.e, fs);
      && Begins(cx, e.e, fs, scope, env, c0, o) && One(fs, fs1) && CompE(e, fs) == UnaryEnd(e.op, fs1, fs)
      && Agree(cx, CompE(e, fs), Frontier(fs1)) && Fits(CompE(e, fs)) && Start(fs, scope)
    ensures e.op == NOT || Bytecode.Unary(e.op)
  {
    hide Arrive, Eval, Effect, UnaryEnd, Fits, Agree, InScope, DestSafe, Laid, LastIsCmp, Frontier;
    var fs1 := CompE(e.e, fs);
    UnaryGrows(e.op, fs1, fs);
    LayE(e.e, fs, scope);
    LaidStart(fs, fs1, scope);
    LayUnary(e.op, fs1, fs, scope);
    AgreeSplit(cx, fs, fs1, CompE(e, fs), scope);
  }

  lemma SimUnaryE(cx: Context, e: Expr, fs: FState, scope: seq<Slot>, env: seq<Val>, c0: Conf,
      o: Outcome) returns (o': Outcome)
    requires Begins(cx, e, fs, scope, env, c0, o) && e.Unary?
    ensures Computes(cx, e, fs, scope, env, c0, o, o')
    decreases e, 0
  {
    hide Arrive, Yields, EvalAfter, Effect, UnaryEnd, CompE, Ran, Agree, One, Start, Fits, Safe, WellFormed, LastIsCmp,
      Ready;
    UnaryParts(cx, e, fs, scope, env, c0, o);
    var fs1 := CompE(e.e, fs);
    var o1 := SimE(cx, e.e, fs, scope, env, c0, o);
    RanAfter(cx, e.e, fs, scope, env, c0, o, o1);
    o' := SimUnary(cx, e.op, fs1, fs, scope, env, c0, o, o1, EvalAfter(cx.prims, e.e, scope, env, o));
    UnaryUnfold(cx.prims, e, scope, env, o);
  }

  lemma UnaryUnfold(pr: Prims, e: Expr, scope: seq<Slot>, env: seq<Val>, o: Outcome)
    requires e.Unary?
    ensures EvalAfter(pr, e, scope, env, o) == UnaryMeaning(pr, e.op, EvalAfter(pr, e.e, scope, env, o))
  {
  }

  lemma BinParts(cx: Context, e: Expr, fs: FState, scope: seq<Slot>, env: seq<Val>, c0: Conf, o: Outcome)
    requires Begins(cx, e, fs, scope, env, c0, o) && e.Bin?
    ensures var fs1 := CompE(e.l, fs);
      && Begins(cx, e.l, fs, scope, env, c0, o) && One(fs, fs1) && Start(fs, scope)
      && Ready(fs1) && WellFormed(e.r) && Safe(e.r, EndsCmp(e.l, LastIsCmp(fs), scope), scope)
    ensures var fs1 := CompE(e.l, fs); var fs2 := CompE(e.r, fs1);
      && One(fs1, fs2) && Fits(fs2) && Agree(cx, fs2, Frontier(fs1))
      && CompE(e, fs) == BinEnd(e.op, e.imm, fs2, fs1, fs) && Agree(cx, CompE(e, fs), Frontier(fs2))
      && Fits(CompE(e, fs))
    ensures ((e.op in {EQ, NE} && e.imm == 0) || Binary(e.op)) && 0 <= e.imm < 256
  {
    hide Arrive, Eval, Effect, BinEnd, Fits, Agree, InScope, DestSafe, Laid, LastIsCmp, Frontier, Ready, CompE, Grown,
      Pushed, EndsCmp;
    BinCode(e, fs);
    var fs1 := CompE(e.l, fs);
    OneReady(fs, fs1);
    var fs2 := CompE(e.r, fs1);
    BinGrows(e.op, e.imm, fs2, fs1, fs);
    LayE(e.l, fs, scope);
    LaidStart(fs, fs1, scope);
    LayE(e.r, fs1, scope);
    LaidStart(fs1, fs2, scope);
    LayBin(e.op, e.imm, fs2, fs1, fs, scope);
    LaidTrans(fs, fs1, fs2, scope);
    AgreeSplit(cx, fs, fs2, CompE(e, fs), scope);
    AgreeSplit(cx, fs, fs1, fs2, scope);
  }

  lemma BinCode(e: Expr, fs: FState)
    requires Ready(fs) && e.Bin?
    ensures var fs1 := CompE(e.l, fs); Ready(fs1) && CompE(e, fs) == BinEnd(e.op, e.imm, CompE(e.r, fs1), fs1, fs)
  {
    hide Circuit, CircuitEnd, One, Same, Ready, TestPushed, Pop, Top, CompConst, CompPlace, LoadEnd, UnaryEnd, BinEnd,
      CondTest,
      CondElse, CondEnd, AssignEnd, OpAssignEnd, IncDecEnd, Result, ArrayEnd, CompElements, CompMethod, CompCall,
        CompFunction;
    OneReady(fs, CompE(e.l, fs));
  }

  lemma BinUnfold(pr: Prims, e: Expr, scope: seq<Slot>, env: seq<Val>, o: Outcome, o1: Outcome, r1: EvalResult)
    requires e.Bin? && r1 == EvalAfter(pr, e.l, scope, env, o) && Follows(o1, r1)
    ensures EvalAfter(pr, e, scope, env, o)
      == BinMeaning(pr, e.op, e.imm, r1, EvalAfter(pr, e.r, scope, EnvAfter(r1, env), o1))
  {
  }

  /** The outcome has the world, or the exception, of the result. */
  ghost predicate Follows(o: Outcome, r: EvalResult) {
    match r
    case EThrow(w) => o == Raise(w)
    case EOk(_, _, w) => o.Ok? && o.st.w == w
  }

  lemma SimBinE(cx: Context, e: Expr, fs: FState, scope: seq<Slot>, env: seq<Val>, c0: Conf,
      o: Outcome) returns (o': Outcome)
    requires Begins(cx, e, fs, scope, env, c0, o) && e.Bin?
    ensures Computes(cx, e, fs, scope, env, c0, o, o')
    decreases e, 0
  {
    hide Arrive, Eval, Effect, BinEnd, CompE, Agree, One, Fits, Safe, WellFormed, LastIsCmp, Ready, EndsCmp, InScope,
      DestSafe, Locals, Kept, Holds, BinMeaning;
    BinParts(cx, e, fs, scope, env, c0, o);
    var fs1 := CompE(e.l, fs);
    var o1 := SimE(cx, e.l, fs, scope, env, c0, o);
    RanAfter(cx, e.l, fs, scope, env, c0, o, o1);
    var r1 := EvalAfter(cx.prims, e.l, scope, env, o);
    var env1 := EnvAfter(r1, env);
    assert Begins(cx, e.r, fs1, scope, env1, c0, o1);
    var fs2 := CompE(e.r, fs1);
    var o2 := SimE(cx, e.r, fs1, scope, env1, c0, o1);
    RanAfter(cx, e.r, fs1, scope, env1, c0, o1, o2);
    var r2 := EvalAfter(cx.prims, e.r, scope, env1, o1);
    o' := SimBin(cx, e.op, e.imm, fs2, fs1, fs, scope, EnvAfter(r2, env1), c0, o, o1, o2, r1, r2);
    BinUnfold(cx.prims, e, scope, env, o, o1, r1);
  }

  // --- places

  ghost predicate BeginsPlace(cx: Context, p: Place, fs: FState, scope: seq<Slot>, env: seq<Val>, c0: Conf,
      o: Outcome) {
    && Ready(fs) && Ran(cx, fs, c0, o, scope, env)
    && WellFormedPlace(p) && SafePlace(p, LastIsCmp(fs), scope)
    && Fits(CompPlace(p, fs).fs) && Agree(cx, CompPlace(p, fs).fs, Frontier(fs))
  }

  ghost predicate ComputesPlace(cx: Context, p: Place, fs: FState, scope: seq<Slot>, env: seq<Val>, c0: Conf,
      o: Outcome, o': Outcome)
    requires Ready(fs)
  {
    && Arrive(cx, CompPlace(p, fs).fs, c0, o')
    && PlaceYields(o, o', PlaceAfter(cx.prims, p, scope, env, o), CompPlace(p, fs), |fs.vlocals|, |scope|, env)
  }

  function PlaceEnv(r: PlaceResult, env: seq<Val>): (env': seq<Val>) {
    if r.FieldPlace? then r.env else env
  }

  lemma FieldParts(cx: Context, p: Place, fs: FState, scope: seq<Slot>, env: seq<Val>, c0: Conf, o: Outcome)
    requires BeginsPlace(cx, p, fs, scope, env, c0, o) && p.Field?
    ensures var mid := CompE(p.o, fs);
      && Begins(cx, p.o, fs, scope, env, c0, o) && One(fs, mid)
      && Ready(mid) && WellFormed(p.k) && Safe(p.k, EndsCmp(p.o, LastIsCmp(fs), scope), scope)
    ensures var mid := CompE(p.o, fs); var fs2 := CompE(p.k, mid);
      && One(mid, fs2) && Fits(fs2) && Agree(cx, fs2, Frontier(mid)) && CompPlace(p, fs) == FieldCode(mid, fs2)
  {
    hide Arrive, Eval, Effect, Fits, Agree, InScope, DestSafe, Laid, LastIsCmp, Frontier, Ready;
    var mid := CompE(p.o, fs);
    OneReady(fs, mid);
    var fs2 := CompE(p.k, mid);
    Grows(mid, fs2);
    LayE(p.o, fs, scope);
    LaidStart(fs, mid, scope);
    LayE(p.k, mid, scope);
    AgreeSplit(cx, fs, mid, fs2, scope);
  }

  lemma FieldUnfold(pr: Prims, p: Place, scope: seq<Slot>, env: seq<Val>, o: Outcome, o1: Outcome, r1: EvalResult,
      r2: EvalResult)
    requires p.Field? && r1 == EvalAfter(pr, p.o, scope, env, o) && Follows(o1, r1)
    requires r2 == EvalAfter(pr, p.k, scope, EnvAfter(r1, env), o1)
    ensures PlaceAfter(pr, p, scope, env, o) == match (r1, r2)
      case (EOk(a, _, _), EOk(b, env2, w2)) => FieldPlace(a, b, env2, w2)
      case (_, EThrow(w2)) => PThrow(w2)
      case (EThrow(w1), _) => PThrow(w1)
  {
  }

  lemma SimField(cx: Context, p: Place, fs: FState, scope: seq<Slot>, env: seq<Val>, c0: Conf,
      o: Outcome) returns (o': Outcome)
    requires BeginsPlace(cx, p, fs, scope, env, c0, o) && p.Field?
    ensures ComputesPlace(cx, p, fs, scope, env, c0, o, o')
    decreases p, 0
  {
    hide Arrive, Eval, Effect, CompE, CompPlace, Agree, Fits, Safe, WellFormed, LastIsCmp, Ready, EndsCmp, InScope,
      DestSafe, Locals, PlaceAfter;
    FieldParts(cx, p, fs, scope, env, c0, o);
    ScopeFits(cx, fs, c0, o, scope, env);
    var mid := CompE(p.o, fs);
    var o1 := SimE(cx, p.o, fs, scope, env, c0, o);
    RanAfter(cx, p.o, fs, scope, env, c0, o, o1);
    var r1 := EvalAfter(cx.prims, p.o, scope, env, o);
    var env1 := EnvAfter(r1, env);
    assert Begins(cx, p.k, mid, scope, env1, c0, o1);
    o' := SimE(cx, p.k, mid, scope, env1, c0, o1);
    var r2 := EvalAfter(cx.prims, p.k, scope, env1, o1);
    FieldUnfold(cx.prims, p, scope, env, o, o1, r1, r2);
    FieldYields(o, o1, o', r1, r2, PlaceAfter(cx.prims, p, scope, env, o), CompPlace(p, fs), fs, |scope|, env);
  }

  lemma FieldYields(o: Outcome, o1: Outcome, o': Outcome, r1: EvalResult, r2: EvalResult, res: PlaceResult,
      pc: PlaceCode, fs: FState,
    nl: int, env: seq<Val>)
    requires PlacePushed(fs, pc) && pc.FieldCode? && 0 < nl <= |fs.vlocals|
    requires Yields(o, o1, r1, Top(pc.mid), |fs.vlocals|, nl) && Yields(o1, o', r2, Top(pc.fs), |pc.mid.vlocals|, nl)
    requires r1.EThrow? ==> r2 == r1
    requires res == match (r1, r2)
      case (EOk(a, _, _), EOk(b, env2, w2)) => FieldPlace(a, b, env2, w2)
      case (_, EThrow(w2)) => PThrow(w2)
      case (EThrow(w1), _) => PThrow(w1)
    ensures PlaceYields(o, o', res, pc, |fs.vlocals|, nl, env)
  {
  }

  lemma ScopeFits(cx: Context, fs: FState, c0: Conf, o: Outcome, scope: seq<Slot>, env: seq<Val>)
    requires Ran(cx, fs, c0, o, scope, env)
    ensures 0 < |scope| <= |fs.vlocals|
  {
  }

  lemma SimPlace(cx: Context, p: Place, fs: FState, scope: seq<Slot>, env: seq<Val>, c0: Conf,
      o: Outcome) returns (o': Outcome)
    requires BeginsPlace(cx, p, fs, scope, env, c0, o)
    ensures ComputesPlace(cx, p, fs, scope, env, c0, o, o')
    decreases p, 1
  {
    if p.Field? {
      o' := SimField(cx, p, fs, scope, env, c0, o);
    } else {
      o' := SimName(cx, p.name, fs, scope, env, c0, o);
    }
  }

  lemma SimName(cx: Context, x: string, fs: FState, scope: seq<Slot>, env: seq<Val>, c0: Conf,
      o: Outcome) returns (o': Outcome)
    requires BeginsPlace(cx, Name(x), fs, scope, env, c0, o)
    ensures ComputesPlace(cx, Name(x), fs, scope, env, c0, o, o')
  {
    hide Effect, Eval, Arrive, Lookup, LoadLiteral, Agree;
    LookupScope(fs, scope, x);
    if Lookup(scope, x) >= 0 {
      SameCodeArrive(cx, fs, PushTarget(fs, Lookup(scope, x)), c0, o);
      o' := o;
    } else {
      var mid := PushTarget(fs, 0);
      SameCodeArrive(cx, fs, mid, c0, o);
      o' := SimLiteral(cx, Str(x), mid, scope, env, c0, o);
      EvalConst(cx.prims, Str(x), scope, env, o);
    }
  }

  lemma EvalConst(pr: Prims, v: Val, scope: seq<Slot>, env: seq<Val>, o: Outcome)
    ensures EvalAfter(pr, Const(v), scope, env, o) == if o.Ok? then EOk(Value(v), env, o.st.w) else EThrow(o.w)
  {
  }

  lemma RanPlace(cx: Context, p: Place, fs: FState, scope: seq<Slot>, env: seq<Val>, c0: Conf, o: Outcome, o1: Outcome)
    requires BeginsPlace(cx, p, fs, scope, env, c0, o) && ComputesPlace(cx, p, fs, scope, env, c0, o, o1)
    ensures var pc := CompPlace(p, fs); var res := PlaceAfter(cx.prims, p, scope, env, o);
      && Ran(cx, pc.fs, c0, o1, scope, PlaceEnv(res, env))
      && PlacePushed(fs, pc) && (pc.FieldCode? ==> Start(pc.mid, scope))
      && Laid(fs, pc.fs, scope)
      && (LastIsCmp(pc.fs) <==> PlaceEndsCmp(p, LastIsCmp(fs), scope))
      && (pc.LocalCode? ==> o1 == o && pc.fs == PushTarget(fs, Top(pc.fs)) && 0 <= Top(pc.fs) < |scope|)
      && (res.LocalPlace? ==> pc.LocalCode?) && (res.FieldPlace? ==> pc.FieldCode?)
      && (res.PThrow? ==> o1 == Raise(res.w))
  {
    hide Effect, Eval, Arrive;
    LayPlace(p, fs, scope);
  }

  // --- reads, assignments and increments

  lemma LoadParts(cx: Context, e: Expr, fs: FState, scope: seq<Slot>, env: seq<Val>, c0: Conf, o: Outcome)
    requires Begins(cx, e, fs, scope, env, c0, o) && e.Load?
    ensures BeginsPlace(cx, e.p, fs, scope, env, c0, o) && CompE(e, fs) == LoadEnd(CompPlace(e.p, fs), fs)
    ensures Agree(cx, CompE(e, fs), Frontier(CompPlace(e.p, fs).fs)) && Fits(CompE(e, fs)) && Start(fs, scope)
  {
    hide Arrive, Eval, Effect, Agree, InScope, DestSafe, Laid, LastIsCmp, Frontier;
    var pc := CompPlace(e.p, fs);
    PlaceGrows(e.p, fs, scope);
    LayPlace(e.p, fs, scope);
    LaidStart(fs, pc.fs, scope);
    if pc.FieldCode? {
      LayResult2(GET, 0, pc.mid, pc.fs, fs, scope);
    } else {
      LaidSelf(pc.fs, scope);
    }
    AgreeSplit(cx, fs, pc.fs, CompE(e, fs), scope);
  }

  lemma LaidSelf(fs: FState, scope: seq<Slot>)
    requires Start(fs, scope)
    ensures Laid(fs, fs, scope)
  {
  }

  function LoadMeaning(pr: Prims, res: PlaceResult, env: seq<Val>, o: Outcome): EvalResult {
    match res
    case LocalPlace(r) => if o.Ok? then EOk(InLocal(r), env, o.st.w) else EThrow(o.w)
    case _ => FieldMeaning(pr, GET, 0, res)
  }

  lemma SimLoadE(cx: Context, e: Expr, fs: FState, scope: seq<Slot>, env: seq<Val>, c0: Conf,
      o: Outcome) returns (o': Outcome)
    requires Begins(cx, e, fs, scope, env, c0, o) && e.Load?
    ensures Computes(cx, e, fs, scope, env, c0, o, o')
    decreases e, 0
  {
    hide Arrive, Effect, CompE, CompPlace, Agree, Fits, Safe, WellFormed, LastIsCmp, InScope, DestSafe, EvalPlace,
      FieldMeaning, Result2, Laid;
    LoadParts(cx, e, fs, scope, env, c0, o);
    var pc := CompPlace(e.p, fs);
    var o1 := SimPlace(cx, e.p, fs, scope, env, c0, o);
    RanPlace(cx, e.p, fs, scope, env, c0, o, o1);
    var res := PlaceAfter(cx.prims, e.p, scope, env, o);
    if pc.LocalCode? {
      o' := o1;
    } else {
      o' := SimResult2(cx, GET, 0, pc, fs, scope, PlaceEnv(res, env), c0, o, o1, res);
    }
    LoadUnfold(cx.prims, e, scope, env, o);
  }

  lemma LoadUnfold(pr: Prims, e: Expr, scope: seq<Slot>, env: seq<Val>, o: Outcome)
    requires e.Load?
    ensures EvalAfter(pr, e, scope, env, o) == LoadMeaning(pr, PlaceAfter(pr, e.p, scope, env, o), env, o)
  {
  }

  /** What Assign and OpAssign share: a place, then a value. */
  ghost predicate StoreParts(cx: Context, p: Place, e1: Expr, fs': FState, fs: FState, scope: seq<Slot>, env: seq<Val>,
      c0: Conf, o: Outcome)
    requires Ready(fs)
  {
    var pc := CompPlace(p, fs);
    var fs3 := CompE(e1, pc.fs);
    && BeginsPlace(cx, p, fs, scope, env, c0, o) && Start(fs, scope)
    && Ready(pc.fs) && WellFormed(e1) && Safe(e1, PlaceEndsCmp(p, LastIsCmp(fs), scope), scope)
    && One(pc.fs, fs3) && Fits(fs3) && Agree(cx, fs3, Frontier(pc.fs))
    && Fits(fs') && Agree(cx, fs', Frontier(fs3))
  }

  lemma AssignParts(cx: Context, e: Expr, fs: FState, scope: seq<Slot>, env: seq<Val>, c0: Conf, o: Outcome)
    requires Begins(cx, e, fs, scope, env, c0, o) && (e.Assign? || e.OpAssign?)
    ensures StoreParts(cx, e.p, e.e, CompE(e, fs), fs, scope, env, c0, o)
    ensures var pc := CompPlace(e.p, fs);
      CompE(e, fs)
        == if e.Assign? then AssignEnd(CompE(e.e, pc.fs), pc, fs) else OpAssignEnd(e.op, CompE(e.e, pc.fs), pc, fs)
  {
    hide Arrive, Eval, Effect, Agree, InScope, DestSafe, Laid, LastIsCmp, Frontier, Ready, AssignEnd, OpAssignEnd,
      Fits, Grown, Pushed;
    var pc := CompPlace(e.p, fs);
    var fs3 := CompE(e.e, pc.fs);
    if e.Assign? {
      AssignGrows(fs3, pc, fs);
    } else {
      OpAssignGrows(e.op, fs3, pc, fs);
    }
    LayPlace(e.p, fs, scope);
    LaidStart(fs, pc.fs, scope);
    LayE(e.e, pc.fs, scope);
    LaidStart(pc.fs, fs3, scope);
    if e.Assign? {
      LayAssign(fs3, pc, fs, scope);
    } else {
      LayOpAssign(e.op, fs3, pc, fs, scope);
    }
    LaidTrans(fs, pc.fs, fs3, scope);
    AgreeSplit(cx, fs, fs3, CompE(e, fs), scope);
    AgreeSplit(cx, fs, pc.fs, fs3, scope);
  }

  function StoreTo(pr: Prims, e: Expr, res: PlaceResult, r3: EvalResult): EvalResult
    requires e.Assign? || e.OpAssign?
  {
    match res
    case LocalPlace(r) => if e.Assign? then AssignMeaning(r, r3) else OpAssignMeaning(pr, e.op, r, r3)
    case _ => if e.Assign? then StoreMeaning(pr, SET, 0, res, r3) else StoreMeaning(pr, COMPARITH, OpChar(e.op), res,
      r3)
  }

  lemma StoreUnfold(pr: Prims, e: Expr, scope: seq<Slot>, env: seq<Val>, o: Outcome, o1: Outcome, res: PlaceResult)
    requires e.Assign? || e.OpAssign?
    requires res == PlaceAfter(pr, e.p, scope, env, o)
    requires match res
      case PThrow(w) => o1 == Raise(w)
      case LocalPlace(_) => o1 == o
      case FieldPlace(_, _, _, w) => o1.Ok? && o1.st.w == w
    ensures EvalAfter(pr, e, scope, env, o) == StoreTo(pr, e, res, EvalAfter(pr, e.e, scope, PlaceEnv(res, env), o1))
  {
  }

  lemma SimStoreE(cx: Context, e: Expr, fs: FState, scope: seq<Slot>, env: seq<Val>, c0: Conf,
      o: Outcome) returns (o': Outcome)
    requires Begins(cx, e, fs, scope, env, c0, o) && (e.Assign? || e.OpAssign?)
    ensures Computes(cx, e, fs, scope, env, c0, o, o')
    decreases e, 0
  {
    hide Arrive, Effect, CompE, CompPlace, Agree, Fits, Safe, LastIsCmp, InScope, DestSafe, Eval, EvalPlace, Laid,
      AssignEnd, OpAssignEnd, Pushed, Grown, PlaceYields, PlaceAfter, Yields, StoreMeaning, AssignMeaning,
      OpAssignMeaning;
    AssignParts(cx, e, fs, scope, env, c0, o);
    var pc := CompPlace(e.p, fs);
    var o1 := SimPlace(cx, e.p, fs, scope, env, c0, o);
    RanPlace(cx, e.p, fs, scope, env, c0, o, o1);
    var res := PlaceAfter(cx.prims, e.p, scope, env, o);
    var env1 := PlaceEnv(res, env);
    assert Begins(cx, e.e, pc.fs, scope, env1, c0, o1);
    var o3 := SimE(cx, e.e, pc.fs, scope, env1, c0, o1);
    RanAfter(cx, e.e, pc.fs, scope, env1, c0, o1, o3);
    o' := SimStoreEnd(cx, e, fs, scope, env, c0, o, o1, o3);
  }

  lemma SimStoreEnd(cx: Context, e: Expr, fs: FState, scope: seq<Slot>, env: seq<Val>, c0: Conf, o: Outcome,
      o1: Outcome, o3: Outcome)
    returns (o': Outcome)
    requires Begins(cx, e, fs, scope, env, c0, o) && (e.Assign? || e.OpAssign?)
    requires ComputesPlace(cx, e.p, fs, scope, env, c0, o, o1) && Ready(CompPlace(e.p, fs).fs)
    requires Computes(cx, e.e, CompPlace(e.p, fs).fs, scope, PlaceEnv(PlaceAfter(cx.prims, e.p, scope, env, o), env),
      c0, o1, o3)
    requires var env1 := PlaceEnv(PlaceAfter(cx.prims, e.p, scope, env, o), env); var pc := CompPlace(e.p, fs);
      Ran(cx, CompE(e.e, pc.fs), c0, o3, scope, EnvAfter(EvalAfter(cx.prims, e.e, scope, env1, o1), env1))
    ensures Computes(cx, e, fs, scope, env, c0, o, o')
  {
    hide Arrive, Effect, CompE, CompPlace, Agree, Fits, Safe, LastIsCmp, InScope, DestSafe, EvalPlace, Laid, AssignEnd,
      OpAssignEnd, Grown, StoreMeaning, AssignMeaning, OpAssignMeaning, Eval, Locals, Kept;
    AssignParts(cx, e, fs, scope, env, c0, o);
    RanPlace(cx, e.p, fs, scope, env, c0, o, o1);
    var pc := CompPlace(e.p, fs);
    var fs3 := CompE(e.e, pc.fs);
    var res := PlaceAfter(cx.prims, e.p, scope, env, o);
    var env1 := PlaceEnv(res, env);
    var r3 := EvalAfter(cx.prims, e.e, scope, env1, o1);
    var env3 := EnvAfter(r3, env1);
    StoreUnfold(cx.prims, e, scope, env, o, o1, res);
    if pc.LocalCode? {
      var r := Top(pc.fs);
      if e.Assign? {
        o' := SimAssign(cx, fs3, pc.fs, fs, scope, env3, c0, o, o3, r, r3);
        AssignTop(fs3, pc.fs, fs);
      } else {
        o' := SimOpAssign(cx, e.op, fs3, pc.fs, fs, scope, env3, c0, o, o3, r, r3);
        OpAssignTop(e.op, fs3, pc.fs, fs);
      }
      LocalStore(cx.prims, e, res, r, r3);
    } else {
      StoreTop(e, fs3, pc, fs);
      if e.Assign? {
        o' := SimResult3(cx, SET, 0, pc, fs3, fs, scope, env3, c0, o, o1, o3, res, r3);
      } else {
        o' := SimResult3(cx, COMPARITH, OpChar(e.op), pc, fs3, fs, scope, env3, c0, o, o1, o3, res, r3);
      }
    }
  }

  lemma AssignTop(fs3: FState, fs0: FState, fs: FState)
    requires PlacePushed(fs, LocalCode(fs0)) && One(fs0, fs3)
    ensures Top(AssignEnd(fs3, LocalCode(fs0), fs)) == Top(fs0)
  {
    PopOne(fs0, fs3);
  }

  lemma OpAssignTop(op: Op, fs3: FState, fs0: FState, fs: FState)
    requires PlacePushed(fs, LocalCode(fs0)) && One(fs0, fs3)
    ensures Top(OpAssignEnd(op, fs3, LocalCode(fs0), fs)) == Top(fs0)
  {
    PopTwo(fs, fs0, fs3);
  }

  lemma StoreTop(e: Expr, fs3: FState, pc: PlaceCode, fs: FState)
    requires (e.Assign? || e.OpAssign?) && PlacePushed(fs, pc) && pc.FieldCode? && One(pc.fs, fs3)
    ensures if e.Assign? then AssignEnd(fs3, pc, fs) == Result3(SET, 0, pc.mid, pc.fs, fs3, fs)
      else OpAssignEnd(e.op, fs3, pc, fs) == Result3(COMPARITH, OpChar(e.op), pc.mid, pc.fs, fs3, fs)
    ensures e.OpAssign? ==> 0 <= OpChar(e.op) < 256
  {
    hide Result3, Add, Fuse, Pop, Grown, Pushed;
  }

  lemma LocalStore(pr: Prims, e: Expr, res: PlaceResult, r: int, r3: EvalResult)
    requires (e.Assign? || e.OpAssign?) && (res == LocalPlace(r) || (res.PThrow? && r3 == EThrow(res.w)))
    ensures StoreTo(pr, e, res, r3) == if e.Assign? then AssignMeaning(r, r3) else OpAssignMeaning(pr, e.op, r, r3)
  {
  }

  lemma IncDecParts(cx: Context, e: Expr, fs: FState, scope: seq<Slot>, env: seq<Val>, c0: Conf, o: Outcome)
    requires Begins(cx, e, fs, scope, env, c0, o) && e.IncDec?
    ensures BeginsPlace(cx, e.p, fs, scope, env, c0, o)
      && CompE(e, fs) == IncDecEnd(e.post, e.diff, CompPlace(e.p, fs), fs)
    ensures Agree(cx, CompE(e, fs), Frontier(CompPlace(e.p, fs).fs)) && Fits(CompE(e, fs)) && Start(fs, scope)
    ensures e.diff in {-1, 1}
  {
    hide Arrive, Eval, Effect, Agree, InScope, DestSafe, Laid, LastIsCmp, Frontier, IncDecEnd, Fits;
    var pc := CompPlace(e.p, fs);
    IncDecGrows(e.post, e.diff, pc, fs);
    LayPlace(e.p, fs, scope);
    LaidStart(fs, pc.fs, scope);
    LayIncDec(e.post, e.diff, pc, fs, scope);
    AgreeSplit(cx, fs, pc.fs, CompE(e, fs), scope);
  }

  function IncDecTo(pr: Prims, e: Expr, res: PlaceResult, env: seq<Val>, o: Outcome): EvalResult
    requires e.IncDec?
  {
    match res
    case LocalPlace(r) => IncDecMeaning(pr, e.post, e.diff, r, env, o)
    case _ => FieldMeaning(pr, if e.post then PINC else INC, e.diff, res)
  }

  lemma IncDecUnfold(pr: Prims, e: Expr, scope: seq<Slot>, env: seq<Val>, o: Outcome)
    requires e.IncDec?
    ensures EvalAfter(pr, e, scope, env, o) == IncDecTo(pr, e, PlaceAfter(pr, e.p, scope, env, o), env, o)
  {
  }

  lemma SimIncDecE(cx: Context, e: Expr, fs: FState, scope: seq<Slot>, env: seq<Val>, c0: Conf,
      o: Outcome) returns (o': Outcome)
    requires Begins(cx, e, fs, scope, env, c0, o) && e.IncDec?
    ensures Computes(cx, e, fs, scope, env, c0, o, o')
    decreases e, 0
  {
    hide Arrive, Effect, CompE, CompPlace, Agree, Safe, WellFormed, LastIsCmp, InScope, DestSafe, EvalPlace, Result2,
      Laid, Kept, Locals;
    IncDecParts(cx, e, fs, scope, env, c0, o);
    var pc := CompPlace(e.p, fs);
    var o1 := SimPlace(cx, e.p, fs, scope, env, c0, o);
    RanPlace(cx, e.p, fs, scope, env, c0, o, o1);
    var res := PlaceAfter(cx.prims, e.p, scope, env, o);
    IncDecUnfold(cx.prims, e, scope, env, o);
    IncDecTop(e.post, e.diff, pc, fs);
    if pc.LocalCode? {
      o' := SimIncDec(cx, e.post, e.diff, pc.fs, fs, scope, env, c0, o, Top(pc.fs));
    } else {
      o' := SimResult2(cx, if e.post then PINC else INC, e.diff, pc, fs, scope, PlaceEnv(res, env), c0, o, o1, res);
    }
  }

  lemma IncDecTop(post: bool, diff: int, pc: PlaceCode, fs: FState)
    requires PlacePushed(fs, pc)
    ensures Top(IncDecEnd(post, diff, pc, fs)) == if pc.LocalCode? && !post then Top(pc.fs) else |fs.vlocals|
    ensures pc.FieldCode? ==>
      IncDecEnd(post, diff, pc, fs) == Result2(if post then PINC else INC, diff, pc.mid, pc.fs, fs)
  {
    match pc {
      case LocalCode(fs0) => PopOne(fs, fs0);
      case FieldCode(_, _) =>
    }
  }

  // --- && and ||

  ghost predicate IsCircuit(e: Expr, op: Op, l: Expr, r: Expr) {
    (op == AND && e == Expr.And(l, r)) || (op == OR && e == Expr.Or(l, r))
  }

  lemma CircuitUnfold(pr: Prims, e: Expr, op: Op, l: Expr, r: Expr, scope: seq<Slot>, env: seq<Val>, o: Outcome)
    requires IsCircuit(e, op, l, r)
    ensures EvalAfter(pr, e, scope, env, o) == CircuitMeaning(pr, op, r, scope, EvalAfter(pr, l, scope, env, o))
  {
    hide EvalPlace, EvalElements, EvalCall, EvalValue, IsFalse, Deref, EvalBin;
    if op == AND {
      assert e == Expr.And(l, r);
    } else {
      assert e == Expr.Or(l, r);
    }
  }

  lemma CircuitParts(e: Expr, op: Op, l: Expr, r: Expr)
    requires IsCircuit(e, op, l, r)
    ensures l < e && r < e && op in {AND, OR}
  {
  }

  lemma CircuitKind(e: Expr, op: Op, l: Expr, r: Expr)
    requires IsCircuit(e, op, l, r)
    ensures if op == AND then e == Expr.And(l, r) else op == OR && e == Expr.Or(l, r)
  {
  }

  lemma CircuitOperands(e: Expr, op: Op, l: Expr, r: Expr, b: bool, scope: seq<Slot>)
    requires IsCircuit(e, op, l, r) && WellFormed(e) && Safe(e, b, scope)
    ensures WellFormed(l) && WellFormed(r) && Safe(l, b, scope) && Safe(r, false, scope) && l < e && r < e
      && op in {AND, OR}
  {
    hide *;
    CircuitParts(e, op, l, r);
    CircuitFine(e, op, l, r, b, scope);
  }

  lemma CircuitFine(e: Expr, op: Op, l: Expr, r: Expr, b: bool, scope: seq<Slot>)
    requires IsCircuit(e, op, l, r) && WellFormed(e) && Safe(e, b, scope)
    ensures WellFormed(l) && WellFormed(r) && Safe(l, b, scope) && Safe(r, false, scope)
  {
    hide *;
    if op == AND {
      AndFine(e, op, l, r, b, scope);
    } else {
      OrFine(e, op, l, r, b, scope);
    }
  }

  lemma AndFine(e: Expr, op: Op, l: Expr, r: Expr, b: bool, scope: seq<Slot>)
    requires IsCircuit(e, op, l, r) && WellFormed(e) && Safe(e, b, scope) && op == AND
    ensures WellFormed(l) && WellFormed(r) && Safe(l, b, scope) && Safe(r, false, scope)
  {
    hide *;
    CircuitKind(e, op, l, r);
    AndOperands(l, r, b, scope);
  }

  lemma OrFine(e: Expr, op: Op, l: Expr, r: Expr, b: bool, scope: seq<Slot>)
    requires IsCircuit(e, op, l, r) && WellFormed(e) && Safe(e, b, scope) && op != AND
    ensures WellFormed(l) && WellFormed(r) && Safe(l, b, scope) && Safe(r, false, scope)
  {
    hide *;
    CircuitKind(e, op, l, r);
    OrOperands(l, r, b, scope);
  }

  lemma AndOperands(l: Expr, r: Expr, b: bool, scope: seq<Slot>)
    requires WellFormed(Expr.And(l, r)) && Safe(Expr.And(l, r), b, scope)
    ensures WellFormed(l) && WellFormed(r) && Safe(l, b, scope) && Safe(r, false, scope)
  {
    hide EndsCmp, BareLocal, WellFormedPlace, WellFormedAll, SafePlace, SafeElements, SafeArgs;
  }

  lemma OrOperands(l: Expr, r: Expr, b: bool, scope: seq<Slot>)
    requires WellFormed(Expr.Or(l, r)) && Safe(Expr.Or(l, r), b, scope)
    ensures WellFormed(l) && WellFormed(r) && Safe(l, b, scope) && Safe(r, false, scope)
  {
    hide EndsCmp, BareLocal, WellFormedPlace, WellFormedAll, SafePlace, SafeElements, SafeArgs;
  }

  /** The code of the second operand, moved into place but not yet patched. */
  function CircuitMoved(fs3: FState, test: Test, ghost fs: FState): (u: FState)
    requires TestPushed(fs, test) && One(test.after, fs3)
    ensures Same(test.after, u) && 0 <= Pos(test.jump) < |u.code|
    ensures CircuitEnd(fs3, test, fs) == Patch(Snooze(u), Pos(test.jump), Pos(u) - Pos(test.jump))
  {
    SnoozeOne(test.after, fs3);
    MoveInto(Snooze(fs3), test.after)
  }

  lemma LayMoved(fs3: FState, t: Test, fs: FState, scope: seq<Slot>)
    requires Start(fs, scope) && Start(t.after, scope) && TestPushed(fs, t) && One(t.after, fs3) && Start(fs3, scope)
    requires Laid(t.after, fs3, scope)
    ensures Laid(fs3, Snooze(CircuitMoved(fs3, t, fs)), scope) && !Open(Snooze(CircuitMoved(fs3, t, fs)))
  {
    hide Add, Fuse, FuseLast, MoveUnless, MoveInto, Shape, Pop;
    var s := Snooze(fs3);
    SnoozeOne(t.after, fs3);
    LaySnooze(t.after, fs3, scope);
    LayJoin(s, t.after, scope);
    var u := MoveInto(s, t.after);
    LaidTrans(fs3, s, u, scope);
    LaySnooze(fs3, u, scope);
  }

  /** What final code that contains a patched `u` says about `u`. */
  lemma AgreePatch(cx: Context, fs1: FState, jump: FState, u: FState, d: int, scope: seq<Slot>, lo: nat)
    requires Laid(fs1, jump, scope) && Laid(jump, u, scope) && !Open(jump) && !Open(u)
    requires |jump.code| == |fs1.code| + 1 && lo <= Frontier(fs1)
    requires Agree(cx, Patch(u, Pos(jump), d), lo)
    ensures PatchedAt(cx, |fs1.code|, Last(jump.code), d) && Agree(cx, u, |jump.code|)
    ensures Open(fs1) && jump.code[..|fs1.code|] == fs1.code ==> cx.code[Frontier(fs1)] == Last(fs1.code)
  {
  }

  ghost predicate CircuitPhases(cx: Context, op: Op, fs1: FState, t: Test, fs3: FState, fs: FState, scope: seq<Slot>)
    requires |fs1.targets| > 0
  {
    && Start(fs, scope) && One(fs, fs1) && Start(fs1, scope) && t == Circuit(op, fs1, fs) && TestPushed(fs, t)
    && One(t.after, fs3)
    && !Open(t.jump) && !LastIsCmp(t.after)
    && Start(t.jump, scope) && Start(t.after, scope) && Start(fs3, scope) && Fits(fs3) && Fits(t.after)
    && PatchedAt(cx, |fs1.code|, Ins(op, |fs.vlocals|, 0, Top(fs1), 0), Pos(CircuitMoved(fs3, t, fs)) - Pos(t.jump))
    && (Open(fs1) ==> cx.code[Frontier(fs1)] == Last(fs1.code)) && |t.jump.code| == |fs1.code| + 1
    && Agree(cx, t.after, Frontier(t.jump)) && Agree(cx, fs3, Frontier(t.after))
    && Agree(cx, Snooze(CircuitMoved(fs3, t, fs)), Frontier(fs3))
  }

  lemma CircuitPrefix(op: Op, fs1: FState, fs: FState)
    requires One(fs, fs1) && op in {AND, OR}
    ensures Circuit(op, fs1, fs).jump.code[..|fs1.code|] == fs1.code
  {
    PopOne(fs, fs1);
  }

  lemma CircuitLayout(op: Op, l: Expr, r: Expr, fs: FState, scope: seq<Slot>)
    requires Start(fs, scope) && Ready(fs) && WellFormed(l) && WellFormed(r) && op in {AND, OR}
    requires var t := Circuit(op, CompE(l, fs), fs); Ready(t.after) && Fits(CircuitEnd(CompE(r, t.after), t, fs))
    ensures var fs1 := CompE(l, fs); var t := Circuit(op, fs1, fs); var fs3 := CompE(r, t.after);
      && One(fs, fs1) && TestPushed(fs, t) && One(t.after, fs3)
      && Laid(fs, fs1, scope) && Laid(fs1, t.jump, scope) && Laid(t.jump, t.after, scope) && Laid(t.after, fs3, scope)
      && Laid(fs3, Snooze(CircuitMoved(fs3, t, fs)), scope)
      && !Open(t.jump) && !LastIsCmp(t.after) && |t.jump.code| == |fs1.code| + 1 && Fits(fs3) && Fits(t.after)
      && Fits(fs1)
      && Last(t.jump.code) == Ins(op, |fs.vlocals|, 0, Top(fs1), 0) && !Open(Snooze(CircuitMoved(fs3, t, fs)))
      && Laid(fs1, CircuitEnd(fs3, t, fs), scope)
  {
    hide Fits, InScope, DestSafe, Laid, LastIsCmp, CircuitEnd, Circuit, EndsCmp, CircuitMoved, Open, CompE, Grown,
      Pushed;
    var fs1 := CompE(l, fs);
    var t := Circuit(op, fs1, fs);
    var fs3 := CompE(r, t.after);
    CircuitGrows(fs3, t, fs1, op, fs);
    LayE(l, fs, scope);
    LaidStart(fs, fs1, scope);
    LayCircuit(op, fs1, fs, scope);
    LaidStart(fs1, t.jump, scope);
    LaidStart(t.jump, t.after, scope);
    LayE(r, t.after, scope);
    LaidStart(t.after, fs3, scope);
    LayMoved(fs3, t, fs, scope);
    LayCircuitEnd(fs3, t, fs1, fs, scope);
  }

  lemma CircuitAgree(cx: Context, op: Op, l: Expr, r: Expr, fs: FState, scope: seq<Slot>)
    requires Start(fs, scope) && Ready(fs) && WellFormed(l) && WellFormed(r) && op in {AND, OR}
    requires var t := Circuit(op, CompE(l, fs), fs); Ready(t.after) && Fits(CircuitEnd(CompE(r, t.after), t, fs))
    requires var t := Circuit(op, CompE(l, fs), fs); Agree(cx, CircuitEnd(CompE(r, t.after), t, fs), Frontier(fs))
    ensures var fs1 := CompE(l, fs); var t := Circuit(op, fs1, fs); var fs3 := CompE(r, t.after);
      CircuitPhases(cx, op, fs1, t, fs3, fs, scope) && Agree(cx, fs1, Frontier(fs)) && Fits(fs1)
  {
    hide Fits, InScope, DestSafe, Laid, LastIsCmp, CircuitEnd, Circuit, EndsCmp, CircuitMoved, Open, Frontier, Agree,
      CompE, Grown, Pushed, PatchedAt,
      CircuitPhases, TestPushed, Same;
    CircuitLayout(op, l, r, fs, scope);
    var fs1 := CompE(l, fs);
    var t := Circuit(op, fs1, fs);
    PhasesAgree(cx, op, fs1, t, CompE(r, t.after), fs, scope);
  }

  /** The phases of a circuit that is laid out so agree with final code that agrees with its end. */
  lemma PhasesAgree(cx: Context, op: Op, fs1: FState, t: Test, fs3: FState, fs: FState, scope: seq<Slot>)
    requires Start(fs, scope) && One(fs, fs1) && t == Circuit(op, fs1, fs) && TestPushed(fs, t) && One(t.after, fs3)
      && op in {AND, OR}
    requires Laid(fs, fs1, scope) && Laid(fs1, t.jump, scope) && Laid(t.jump, t.after, scope)
      && Laid(t.after, fs3, scope)
    requires Laid(fs3, Snooze(CircuitMoved(fs3, t, fs)), scope) && Laid(fs1, CircuitEnd(fs3, t, fs), scope)
    requires !Open(t.jump) && !LastIsCmp(t.after) && |t.jump.code| == |fs1.code| + 1 && Fits(fs3) && Fits(t.after)
    requires Last(t.jump.code) == Ins(op, |fs.vlocals|, 0, Top(fs1), 0) && !Open(Snooze(CircuitMoved(fs3, t, fs)))
    requires Agree(cx, CircuitEnd(fs3, t, fs), Frontier(fs))
    ensures CircuitPhases(cx, op, fs1, t, fs3, fs, scope) && Agree(cx, fs1, Frontier(fs))
  {
    hide Fits, InScope, DestSafe, Laid, LastIsCmp, CircuitEnd, Circuit, EndsCmp, CircuitMoved, Open, Frontier, Agree,
      Grown, Pushed, PatchedAt;
    LaidStart(fs, fs1, scope);
    LaidStart(fs1, t.jump, scope);
    LaidStart(t.jump, t.after, scope);
    LaidStart(t.after, fs3, scope);
    AgreeSplit(cx, fs, fs1, CircuitEnd(fs3, t, fs), scope);
    var u := Snooze(CircuitMoved(fs3, t, fs));
    LaidTrans(t.jump, t.after, fs3, scope);
    LaidTrans(t.jump, fs3, u, scope);
    CircuitPrefix(op, fs1, fs);
    AgreePatch(cx, fs1, t.jump, u, Pos(u) - Pos(t.jump), scope, Frontier(fs1));
    ClosedFrontier(t.jump);
    AgreeSplit(cx, t.jump, fs3, u, scope);
    AgreeSplit(cx, t.jump, t.after, fs3, scope);
  }

  lemma ClosedFrontier(fs: FState)
    requires !Open(fs)
    ensures Frontier(fs) == |fs.code|
  {
  }

  lemma CircuitBegins(cx: Context, e: Expr, op: Op, l: Expr, r: Expr, fs: FState, scope: seq<Slot>, env: seq<Val>,
      c0: Conf, o: Outcome)
    requires Begins(cx, e, fs, scope, env, c0, o) && IsCircuit(e, op, l, r)
    ensures Begins(cx, l, fs, scope, env, c0, o) && WellFormed(r) && Safe(r, false, scope)
    ensures var t := Circuit(op, CompE(l, fs), fs);
      && Ready(t.after) && CircuitPhases(cx, op, CompE(l, fs), t, CompE(r, t.after), fs, scope)
      && CompE(e, fs) == CircuitEnd(CompE(r, t.after), t, fs)
  {
    hide Arrive, Eval, Effect, Fits, InScope, DestSafe, LastIsCmp, CircuitEnd, Circuit, EndsCmp, Open, Frontier, Agree,
      CircuitPhases, CompE, One, Locals,
      WellFormed, Safe;
    CircuitOperands(e, op, l, r, LastIsCmp(fs), scope);
    CircuitCode(e, op, l, r, fs);
    CircuitAgree(cx, op, l, r, fs, scope);
  }

  lemma CircuitCode(e: Expr, op: Op, l: Expr, r: Expr, fs: FState)
    requires Ready(fs) && IsCircuit(e, op, l, r)
    ensures var t := Circuit(op, CompE(l, fs), fs);
      Ready(t.after) && CompE(e, fs) == CircuitEnd(CompE(r, t.after), t, fs)
  {
    hide *;
    if op == AND {
      CircuitAndCode(e, op, l, r, fs);
    } else {
      CircuitOrCode(e, op, l, r, fs);
    }
  }

  lemma CircuitAndCode(e: Expr, op: Op, l: Expr, r: Expr, fs: FState)
    requires Ready(fs) && IsCircuit(e, op, l, r) && op == AND
    ensures var t := Circuit(op, CompE(l, fs), fs);
      Ready(t.after) && CompE(e, fs) == CircuitEnd(CompE(r, t.after), t, fs)
  {
    hide *;
    CircuitKind(e, op, l, r);
    AndCode(l, r, fs);
  }

  lemma CircuitOrCode(e: Expr, op: Op, l: Expr, r: Expr, fs: FState)
    requires Ready(fs) && IsCircuit(e, op, l, r) && op != AND
    ensures var t := Circuit(op, CompE(l, fs), fs);
      Ready(t.after) && CompE(e, fs) == CircuitEnd(CompE(r, t.after), t, fs)
  {
    hide *;
    CircuitKind(e, op, l, r);
    OrCode(l, r, fs);
  }

  lemma AndCode(l: Expr, r: Expr, fs: FState)
    requires Ready(fs)
    ensures var t := Circuit(AND, CompE(l, fs), fs);
      Ready(t.after) && CompE(Expr.And(l, r), fs) == CircuitEnd(CompE(r, t.after), t, fs)
  {
    hide Circuit, CircuitEnd, One, Same, Ready, TestPushed, Pop, Top, CompConst, CompPlace, LoadEnd, UnaryEnd, BinEnd,
      CondTest,
      CondElse, CondEnd, AssignEnd, OpAssignEnd, IncDecEnd, Result, ArrayEnd, CompElements, CompMethod, CompCall,
        CompFunction;
    TestReady(Circuit(AND, CompE(l, fs), fs), fs);
  }

  lemma OrCode(l: Expr, r: Expr, fs: FState)
    requires Ready(fs)
    ensures var t := Circuit(OR, CompE(l, fs), fs);
      Ready(t.after) && CompE(Expr.Or(l, r), fs) == CircuitEnd(CompE(r, t.after), t, fs)
  {
    hide Circuit, CircuitEnd, One, Same, Ready, TestPushed, Pop, Top, CompConst, CompPlace, LoadEnd, UnaryEnd, BinEnd,
      CondTest,
      CondElse, CondEnd, AssignEnd, OpAssignEnd, IncDecEnd, Result, ArrayEnd, CompElements, CompMethod, CompCall,
        CompFunction;
    TestReady(Circuit(OR, CompE(l, fs), fs), fs);
  }

  lemma ArriveRaised(cx: Context, fs: FState, c0: Conf, w: World)
    requires Reach(cx, c0, Raised(w))
    ensures Arrive(cx, fs, c0, Raise(w))
  {
  }

  /** Falling through the test: the first operand, if a local variable, is copied. */
  lemma SimAfter(cx: Context, op: Op, fs1: FState, t: Test, fs3: FState, fs: FState, scope: seq<Slot>, c0: Conf,
      st1: State)
    returns (o2: Outcome)
    requires |fs1.targets| > 0 && CircuitPhases(cx, op, fs1, t, fs3, fs, scope)
    requires Reach(cx, c0, At(|fs1.code| + 1, st1))
    ensures Arrive(cx, t.after, c0, o2) && o2.Ok? && o2.st.w == st1.w
    ensures forall x :: 0 <= x < |fs.vlocals| ==> Rd(o2.st.regs, x) == Rd(st1.regs, x)
  {
    hide Effect, Add, Fuse, Pop, Arrive, CircuitMoved, DestSafe;
    ArriveClosed(cx, t.jump, c0, st1);
    TargetRange(fs, fs1, scope);
    o2 := SimMoveUnless(cx, t.jump, |fs.vlocals|, Top(fs1), scope, c0, Ok(st1));
  }

  /** A circuit whose first operand has been run. */
  ghost predicate FirstRun(cx: Context, e: Expr, op: Op, l: Expr, r: Expr, fs: FState, scope: seq<Slot>, env: seq<Val>,
      c0: Conf, o: Outcome,
    o1: Outcome, fs1: FState, t: Test, fs3: FState)
  {
    hide *;
    && Ready(fs) && Begins(cx, e, fs, scope, env, c0, o) && IsCircuit(e, op, l, r)
    && Computes(cx, l, fs, scope, env, c0, o, o1)
    && One(fs, fs1) && fs1 == CompE(l, fs) && |fs1.targets| > 0 && CircuitPhases(cx, op, fs1, t, fs3, fs, scope)
    && TestPushed(fs, t) && One(t.after, fs3) && Ready(t.after) && fs3 == CompE(r, t.after)
    && CompE(e, fs) == CircuitEnd(fs3, t, fs)
    && op in {AND, OR} && Begins(cx, l, fs, scope, env, c0, o) && WellFormed(r) && Safe(r, false, scope)
  }

  /** The result is decided, or the second operand is about to be run. */
  ghost predicate Tested(cx: Context, e: Expr, op: Op, r: Expr, fs: FState, scope: seq<Slot>, env: seq<Val>, c0: Conf,
      o: Outcome, o1: Outcome,
    t: Test, r1: EvalResult, o': Outcome, o2: Outcome)
    requires Ready(fs)
  {
    hide *;
    if r1.EThrow? || Decides(op, Deref(r1.o, r1.env)) then Computes(cx, e, fs, scope, env, c0, o, o')
    else
      && Begins(cx, r, t.after, scope, r1.env, c0, o2)
      && o.Ok? && o1.Ok? && o2.Ok? && o1.st.w == r1.w && o2.st.w == r1.w
      && Kept(o.st.regs, o2.st.regs, |scope|, |fs.vlocals|)
  }

  /** The value of the first operand is tested. */
  lemma FirstValue(cx: Context, e: Expr, op: Op, l: Expr, r: Expr, fs: FState, scope: seq<Slot>, env: seq<Val>,
      c0: Conf, o: Outcome,
    o1: Outcome, fs1: FState, t: Test, fs3: FState)
    requires Ready(fs) && FirstRun(cx, e, op, l, r, fs, scope, env, c0, o, o1, fs1, t, fs3)
    ensures var r1 := EvalAfter(cx.prims, l, scope, env, o);
      && (o1.Raise? ==> r1.EThrow? && r1 == EThrow(o1.w) && Reach(cx, c0, Raised(o1.w)))
      && (o1.Ok? ==> o.Ok? && r1.EOk? && |r1.env| == |scope| == |env| && o1.st.w == r1.w && |fs1.targets| > 0)
      && (o1.Ok? ==> Rd(o1.st.regs, Top(fs1)) == Deref(r1.o, r1.env) && TestedAt(cx, op, fs1, t, fs3, fs, c0, o1))
  {
    hide Arrive, Effect, CompE, Agree, Fits, Safe, WellFormed, LastIsCmp, InScope, DestSafe, Eval, Laid, CircuitEnd,
      Circuit, EndsCmp, Open, Frontier, CircuitMoved, Reach, Locals, Kept,
      IsCircuit, TestPushed, Same, Grown;
    RanAfter(cx, l, fs, scope, env, c0, o, o1);
    var r1 := EvalAfter(cx.prims, l, scope, env, o);
    CircuitRoom(op, fs1, t, fs3, fs, scope);
    SimTest(cx, op, fs1, |fs.vlocals|, Top(fs1), Pos(CircuitMoved(fs3, t, fs)) - Pos(t.jump), c0, o1);
    if o1.Ok? {
      TestValue(cx, fs1, fs, scope, c0, o, o1, r1);
    }
  }

  ghost predicate TestedAt(cx: Context, op: Op, fs1: FState, t: Test, fs3: FState, fs: FState, c0: Conf, o1: Outcome)
    requires |fs1.targets| > 0 && o1.Ok?
  {
    var v := Rd(o1.st.regs, Top(fs1));
    && TestPushed(fs, t) && One(t.after, fs3)
    && var end := |fs1.code| + 1 + (Pos(CircuitMoved(fs3, t, fs)) - Pos(t.jump));
      Reach(cx, c0, if Decides(op, v) then At(end, Store(o1.st, |fs.vlocals|, v)) else At(|fs1.code| + 1, o1.st))
  }

  lemma CircuitDecided(cx: Context, e: Expr, op: Op, l: Expr, r: Expr, fs: FState, scope: seq<Slot>, env: seq<Val>,
      c0: Conf, o: Outcome,
    o1: Outcome, fs1: FState, t: Test, fs3: FState) returns (o': Outcome)
    requires Ready(fs) && FirstRun(cx, e, op, l, r, fs, scope, env, c0, o, o1, fs1, t, fs3) && |fs1.targets| > 0
      && o1.Ok? && TestedAt(cx, op, fs1, t, fs3, fs, c0, o1)
    requires Decides(op, Rd(o1.st.regs, Top(fs1))) && EvalAfter(cx.prims, l, scope, env, o).EOk?
    requires |EvalAfter(cx.prims, l, scope, env, o).env| == |scope| == |env|
    ensures Computes(cx, e, fs, scope, env, c0, o, o')
  {
    hide Arrive, Effect, CompE, Agree, Fits, Safe, WellFormed, LastIsCmp, InScope, DestSafe, Eval, Laid, CircuitEnd,
      Circuit, EndsCmp, Open, Frontier, CircuitMoved, Reach, Locals, Kept,
      IsCircuit, TestPushed, Same, Grown, Decides, Begins;
    var r1 := EvalAfter(cx.prims, l, scope, env, o);
    CircuitUnfold(cx.prims, e, op, l, r, scope, env, o);
    CircuitRoom(op, fs1, t, fs3, fs, scope);
    o' := Ok(Store(o1.st, |fs.vlocals|, Rd(o1.st.regs, Top(fs1))));
    ShortCut(cx, e, op, r, fs1, fs, scope, env, c0, o, o1, o', r1);
  }

  lemma CircuitOn(cx: Context, e: Expr, op: Op, l: Expr, r: Expr, fs: FState, scope: seq<Slot>, env: seq<Val>,
      c0: Conf, o: Outcome,
    o1: Outcome, fs1: FState, t: Test, fs3: FState) returns (o2: Outcome)
    requires Ready(fs) && FirstRun(cx, e, op, l, r, fs, scope, env, c0, o, o1, fs1, t, fs3) && |fs1.targets| > 0
      && o1.Ok? && o.Ok? && TestedAt(cx, op, fs1, t, fs3, fs, c0, o1)
    requires !Decides(op, Rd(o1.st.regs, Top(fs1))) && EvalAfter(cx.prims, l, scope, env, o).EOk?
    requires |EvalAfter(cx.prims, l, scope, env, o).env| == |scope|
      && o1.st.w == EvalAfter(cx.prims, l, scope, env, o).w
    ensures var r1 := EvalAfter(cx.prims, l, scope, env, o);
      Begins(cx, r, t.after, scope, r1.env, c0, o2) && o2.Ok? && o2.st.w == r1.w
        && Kept(o.st.regs, o2.st.regs, |scope|, |fs.vlocals|)
  {
    hide Arrive, Effect, CompE, Agree, Fits, Safe, WellFormed, LastIsCmp, InScope, DestSafe, Eval, Laid, CircuitEnd,
      Circuit, EndsCmp, Open, Frontier, CircuitMoved, Reach, Locals, Kept,
      IsCircuit, TestPushed, Same, Grown;
    o2 := SimAfter(cx, op, fs1, t, fs3, fs, scope, c0, o1.st);
    AfterRan(cx, t.after, fs1, fs, scope, c0, o, o1, o2, EvalAfter(cx.prims, l, scope, env, o));
  }

  lemma RaisedFirst(cx: Context, e: Expr, op: Op, l: Expr, r: Expr, fs: FState, scope: seq<Slot>, env: seq<Val>,
      c0: Conf, o: Outcome,
    o1: Outcome, fs1: FState, t: Test, fs3: FState)
    requires Ready(fs) && FirstRun(cx, e, op, l, r, fs, scope, env, c0, o, o1, fs1, t, fs3) && o1.Raise?
      && Reach(cx, c0, Raised(o1.w))
    requires EvalAfter(cx.prims, l, scope, env, o) == EThrow(o1.w)
    ensures Computes(cx, e, fs, scope, env, c0, o, o1)
  {
    hide Arrive, Begins, Ran, CircuitPhases, Decides, Eval, CompE, Reach, CircuitEnd, Circuit, Kept;
    CircuitUnfold(cx.prims, e, op, l, r, scope, env, o);
    ArriveRaised(cx, CompE(e, fs), c0, o1.w);
  }

  /** How `Tested` is concluded: nothing is left to do, or the second operand is. */
  lemma TestedDone(cx: Context, e: Expr, op: Op, r: Expr, fs: FState, scope: seq<Slot>, env: seq<Val>, c0: Conf,
      o: Outcome, o1: Outcome,
    t: Test, r1: EvalResult, o': Outcome, o2: Outcome)
    requires Ready(fs) && Computes(cx, e, fs, scope, env, c0, o, o') && (r1.EThrow? || Decides(op, Deref(r1.o, r1.env)))
    ensures Tested(cx, e, op, r, fs, scope, env, c0, o, o1, t, r1, o', o2)
  {
    hide Ready, Computes, Decides, Deref, Begins, Kept;
  }

  lemma TestedOn(cx: Context, e: Expr, op: Op, r: Expr, fs: FState, scope: seq<Slot>, env: seq<Val>, c0: Conf,
      o: Outcome, o1: Outcome,
    t: Test, r1: EvalResult, o': Outcome, o2: Outcome)
    requires Ready(fs) && r1.EOk? && !Decides(op, Deref(r1.o, r1.env)) && Begins(cx, r, t.after, scope, r1.env, c0, o2)
    requires o.Ok? && o1.Ok? && o2.Ok? && o1.st.w == r1.w && o2.st.w == r1.w
      && Kept(o.st.regs, o2.st.regs, |scope|, |fs.vlocals|)
    ensures Tested(cx, e, op, r, fs, scope, env, c0, o, o1, t, r1, o', o2)
  {
    hide Ready, Computes, Decides, Deref, Begins, Kept;
  }

  lemma RaisedTested(cx: Context, e: Expr, op: Op, l: Expr, r: Expr, fs: FState, scope: seq<Slot>, env: seq<Val>,
      c0: Conf, o: Outcome,
    o1: Outcome, fs1: FState, t: Test, fs3: FState)
    requires Ready(fs) && FirstRun(cx, e, op, l, r, fs, scope, env, c0, o, o1, fs1, t, fs3) && o1.Raise?
    ensures Tested(cx, e, op, r, fs, scope, env, c0, o, o1, t, EvalAfter(cx.prims, l, scope, env, o), o1, o1)
  {
    hide *;
    FirstValue(cx, e, op, l, r, fs, scope, env, c0, o, o1, fs1, t, fs3);
    RaisedFirst(cx, e, op, l, r, fs, scope, env, c0, o, o1, fs1, t, fs3);
    TestedDone(cx, e, op, r, fs, scope, env, c0, o, o1, t, EvalAfter(cx.prims, l, scope, env, o), o1, o1);
  }

  lemma DecidedTested(cx: Context, e: Expr, op: Op, l: Expr, r: Expr, fs: FState, scope: seq<Slot>, env: seq<Val>,
      c0: Conf, o: Outcome,
    o1: Outcome, fs1: FState, t: Test, fs3: FState) returns (o': Outcome)
    requires Ready(fs) && FirstRun(cx, e, op, l, r, fs, scope, env, c0, o, o1, fs1, t, fs3) && o1.Ok?
      && |fs1.targets| > 0
    requires Decides(op, Rd(o1.st.regs, Top(fs1)))
    ensures Tested(cx, e, op, r, fs, scope, env, c0, o, o1, t, EvalAfter(cx.prims, l, scope, env, o), o', o1)
  {
    hide *;
    FirstValue(cx, e, op, l, r, fs, scope, env, c0, o, o1, fs1, t, fs3);
    o' := CircuitDecided(cx, e, op, l, r, fs, scope, env, c0, o, o1, fs1, t, fs3);
    TestedDone(cx, e, op, r, fs, scope, env, c0, o, o1, t, EvalAfter(cx.prims, l, scope, env, o), o', o1);
  }

  lemma GoesOnTested(cx: Context, e: Expr, op: Op, l: Expr, r: Expr, fs: FState, scope: seq<Slot>, env: seq<Val>,
      c0: Conf, o: Outcome,
    o1: Outcome, fs1: FState, t: Test, fs3: FState) returns (o2: Outcome)
    requires Ready(fs) && FirstRun(cx, e, op, l, r, fs, scope, env, c0, o, o1, fs1, t, fs3) && o1.Ok?
      && |fs1.targets| > 0
    requires !Decides(op, Rd(o1.st.regs, Top(fs1)))
    ensures Tested(cx, e, op, r, fs, scope, env, c0, o, o1, t, EvalAfter(cx.prims, l, scope, env, o), o1, o2)
  {
    hide *;
    FirstValue(cx, e, op, l, r, fs, scope, env, c0, o, o1, fs1, t, fs3);
    o2 := CircuitOn(cx, e, op, l, r, fs, scope, env, c0, o, o1, fs1, t, fs3);
    TestedOn(cx, e, op, r, fs, scope, env, c0, o, o1, t, EvalAfter(cx.prims, l, scope, env, o), o1, o2);
  }

  lemma CircuitTest(cx: Context, e: Expr, op: Op, l: Expr, r: Expr, fs: FState, scope: seq<Slot>, env: seq<Val>,
      c0: Conf, o: Outcome,
    o1: Outcome, fs1: FState, t: Test, fs3: FState) returns (o': Outcome, o2: Outcome)
    requires Ready(fs) && FirstRun(cx, e, op, l, r, fs, scope, env, c0, o, o1, fs1, t, fs3) && |fs1.targets| > 0
    ensures Tested(cx, e, op, r, fs, scope, env, c0, o, o1, t, EvalAfter(cx.prims, l, scope, env, o), o', o2)
  {
    hide *;
    o', o2 := o1, o1;
    if o1.Raise? {
      RaisedTested(cx, e, op, l, r, fs, scope, env, c0, o, o1, fs1, t, fs3);
    } else if Decides(op, Rd(o1.st.regs, Top(fs1))) {
      o' := DecidedTested(cx, e, op, l, r, fs, scope, env, c0, o, o1, fs1, t, fs3);
    } else {
      o2 := GoesOnTested(cx, e, op, l, r, fs, scope, env, c0, o, o1, fs1, t, fs3);
    }
  }

  lemma FirstRuns(cx: Context, e: Expr, op: Op, l: Expr, r: Expr, fs: FState, scope: seq<Slot>, env: seq<Val>,
      c0: Conf, o: Outcome, o1: Outcome)
    requires Begins(cx, e, fs, scope, env, c0, o) && IsCircuit(e, op, l, r) && Ready(fs)
      && Computes(cx, l, fs, scope, env, c0, o, o1)
    ensures var t := Circuit(op, CompE(l, fs), fs);
      && Ready(t.after) && |CompE(l, fs).targets| > 0
      && FirstRun(cx, e, op, l, r, fs, scope, env, c0, o, o1, CompE(l, fs), t, CompE(r, t.after))
  {
    hide Arrive, Effect, CompE, Agree, Fits, Safe, WellFormed, LastIsCmp, Eval, Laid, CircuitEnd, Circuit, EndsCmp,
      Open, Frontier, Locals, Kept,
      IsCircuit, TestPushed, Grown, Same, Computes, CircuitPhases, Begins;
    CircuitBegins(cx, e, op, l, r, fs, scope, env, c0, o);
    CircuitParts(e, op, l, r);
  }

  lemma SimCircuitE(cx: Context, e: Expr, op: Op, l: Expr, r: Expr, fs: FState, scope: seq<Slot>, env: seq<Val>,
      c0: Conf, o: Outcome)
    returns (o': Outcome)
    requires Begins(cx, e, fs, scope, env, c0, o) && IsCircuit(e, op, l, r)
    ensures Computes(cx, e, fs, scope, env, c0, o, o')
    decreases e, 0
  {
    hide *;
    CircuitParts(e, op, l, r);
    CircuitBegins(cx, e, op, l, r, fs, scope, env, c0, o);
    BeginsReady(cx, e, fs, scope, env, c0, o);
    var fs1 := CompE(l, fs);
    var t := Circuit(op, fs1, fs);
    var o1 := SimE(cx, l, fs, scope, env, c0, o);
    FirstRuns(cx, e, op, l, r, fs, scope, env, c0, o, o1);
    var o2;
    o', o2 := CircuitTest(cx, e, op, l, r, fs, scope, env, c0, o, o1, fs1, t, CompE(r, t.after));
    var r1 := EvalAfter(cx.prims, l, scope, env, o);
    if r1.EOk? && !Decides(op, Deref(r1.o, r1.env)) {
      o' := CircuitFinish(cx, e, op, l, r, fs, scope, env, c0, o, o1, o', o2, fs1, t);
    } else {
      Concluded(cx, e, op, r, fs, scope, env, c0, o, o1, t, r1, o', o2);
    }
  }

  lemma BeginsReady(cx: Context, e: Expr, fs: FState, scope: seq<Slot>, env: seq<Val>, c0: Conf, o: Outcome)
    requires Begins(cx, e, fs, scope, env, c0, o)
    ensures Ready(fs)
  {
    hide Ready, Ran, CompE;
  }

  lemma Concluded(cx: Context, e: Expr, op: Op, r: Expr, fs: FState, scope: seq<Slot>, env: seq<Val>, c0: Conf,
      o: Outcome, o1: Outcome,
    t: Test, r1: EvalResult, o': Outcome, o2: Outcome)
    requires Ready(fs) && Tested(cx, e, op, r, fs, scope, env, c0, o, o1, t, r1, o', o2)
      && (r1.EThrow? || Decides(op, Deref(r1.o, r1.env)))
    ensures Computes(cx, e, fs, scope, env, c0, o, o')
  {
    hide Ready, Computes, Decides, Deref, Begins, Kept, CompE;
  }

  lemma GoingOn(cx: Context, e: Expr, op: Op, r: Expr, fs: FState, scope: seq<Slot>, env: seq<Val>, c0: Conf,
      o: Outcome, o1: Outcome,
    t: Test, r1: EvalResult, o': Outcome, o2: Outcome)
    requires Ready(fs) && Tested(cx, e, op, r, fs, scope, env, c0, o, o1, t, r1, o', o2) && r1.EOk?
      && !Decides(op, Deref(r1.o, r1.env))
    ensures Begins(cx, r, t.after, scope, r1.env, c0, o2)
    ensures o.Ok? && o1.Ok? && o2.Ok? && o1.st.w == r1.w && o2.st.w == r1.w
      && Kept(o.st.regs, o2.st.regs, |scope|, |fs.vlocals|)
  {
    hide Ready, Computes, Decides, Deref, Begins, Kept, CompE;
  }

  /** The second operand, after the first did not decide. */
  lemma CircuitFinish(cx: Context, e: Expr, op: Op, l: Expr, r: Expr, fs: FState, scope: seq<Slot>, env: seq<Val>,
      c0: Conf, o: Outcome,
    o1: Outcome, was: Outcome, o2: Outcome, fs1: FState, t: Test) returns (o': Outcome)
    requires Begins(cx, e, fs, scope, env, c0, o) && IsCircuit(e, op, l, r) && Ready(fs) && fs1 == CompE(l, fs)
      && t == Circuit(op, fs1, fs)
    requires Tested(cx, e, op, r, fs, scope, env, c0, o, o1, t, EvalAfter(cx.prims, l, scope, env, o), was, o2)
    requires var r1 := EvalAfter(cx.prims, l, scope, env, o); r1.EOk? && !Decides(op, Deref(r1.o, r1.env))
    ensures Computes(cx, e, fs, scope, env, c0, o, o')
    decreases e, 0, 0
  {
    hide *;
    var r1 := EvalAfter(cx.prims, l, scope, env, o);
    CircuitParts(e, op, l, r);
    CircuitBegins(cx, e, op, l, r, fs, scope, env, c0, o);
    CircuitUnfold(cx.prims, e, op, l, r, scope, env, o);
    GoingOn(cx, e, op, r, fs, scope, env, c0, o, o1, t, r1, was, o2);
    var o3 := SimE(cx, r, t.after, scope, r1.env, c0, o2);
    BeginsScopes(cx, l, r, fs, t.after, scope, env, r1.env, c0, o, o2);
    o' := SimSecond(cx, e, op, r, fs1, t, fs, scope, env, c0, o, o1, o2, o3, r1);
  }

  lemma BeginsScopes(cx: Context, l: Expr, r: Expr, fs: FState, after: FState, scope: seq<Slot>, env: seq<Val>,
      env1: seq<Val>, c0: Conf, o: Outcome,
    o2: Outcome)
    requires Begins(cx, l, fs, scope, env, c0, o) && Begins(cx, r, after, scope, env1, c0, o2) && o.Ok? && o2.Ok?
    ensures Start(fs, scope) && Ready(after) && |env1| == |scope| == |env|
  {
    hide Ready, CompE, Safe, WellFormed, Arrive, Agree, Fits, Locals, InScope, DestSafe;
  }

  lemma TestValue(cx: Context, fs1: FState, fs: FState, scope: seq<Slot>, c0: Conf, o: Outcome, o1: Outcome,
      r1: EvalResult)
    requires Start(fs, scope) && |fs1.targets| > 0 && r1.EOk? && |r1.env| == |scope| && o1.Ok?
    requires Yields(o, o1, r1, Top(fs1), |fs.vlocals|, |scope|)
    ensures Rd(o1.st.regs, Top(fs1)) == Deref(r1.o, r1.env)
  {
    OperandValue(r1.o, o1.st.regs, Top(fs1), |fs.vlocals|, r1.env);
  }

  lemma CircuitRoom(op: Op, fs1: FState, t: Test, fs3: FState, fs: FState, scope: seq<Slot>)
    requires Start(fs, scope) && One(fs, fs1) && Start(fs1, scope) && TestPushed(fs, t) && Start(t.after, scope)
    requires t == Circuit(op, fs1, fs) && Fits(t.after) && One(t.after, fs3)
    ensures |fs.vlocals| < 255 && 0 <= Top(fs1) < 255 && |t.jump.code| > 0
    ensures Pos(t.jump) + 1 + (Pos(CircuitMoved(fs3, t, fs)) - Pos(t.jump)) == |CircuitEnd(fs3, t, fs).code|
    ensures !Open(CircuitEnd(fs3, t, fs)) && Top(CircuitEnd(fs3, t, fs)) == |fs.vlocals|
  {
    hide Add, Fuse, Pop, CircuitEnd;
    assert |t.after.vlocals| == |fs.vlocals| + 1;
    TargetRange(fs, fs1, scope);
  }

  lemma ShortCut(cx: Context, e: Expr, op: Op, r: Expr, fs1: FState, fs: FState, scope: seq<Slot>, env: seq<Val>,
      c0: Conf,
    o: Outcome, o1: Outcome, o': Outcome, r1: EvalResult)
    requires Start(fs, scope) && One(fs, fs1) && |env| == |scope| && r1.EOk? && |r1.env| == |scope|
    requires Yields(o, o1, r1, Top(fs1), |fs.vlocals|, |scope|) && o1.Ok?
    requires o' == Ok(Store(o1.st, |fs.vlocals|, Rd(o1.st.regs, Top(fs1)))) && Decides(op, Rd(o1.st.regs, Top(fs1)))
    requires Ready(fs) && Reach(cx, c0, At(|CompE(e, fs).code|, o'.st)) && !Open(CompE(e, fs))
      && Top(CompE(e, fs)) == |fs.vlocals|
    requires EvalAfter(cx.prims, e, scope, env, o) == CircuitMeaning(cx.prims, op, r, scope, r1)
    ensures Computes(cx, e, fs, scope, env, c0, o, o')
  {
    hide Eval, CompE, Arrive;
    OperandValue(r1.o, o1.st.regs, Top(fs1), |fs.vlocals|, r1.env);
    ArriveClosed(cx, CompE(e, fs), c0, o'.st);
  }

  lemma AfterRan(cx: Context, after: FState, fs1: FState, fs: FState, scope: seq<Slot>, c0: Conf, o: Outcome,
      o1: Outcome, o2: Outcome, r1: EvalResult)
    requires Start(fs, scope) && Start(after, scope) && r1.EOk? && |r1.env| == |scope| && |fs1.targets| > 0
    requires Yields(o, o1, r1, Top(fs1), |fs.vlocals|, |scope|)
    requires Arrive(cx, after, c0, o2) && o2.Ok? && forall x :: 0 <= x < |fs.vlocals| ==>
      Rd(o2.st.regs, x) == Rd(o1.st.regs, x)
    ensures Ran(cx, after, c0, o2, scope, r1.env)
    ensures Kept(o.st.regs, o2.st.regs, |scope|, |fs.vlocals|)
  {
    hide Arrive;
  }

  lemma SimSecond(cx: Context, e: Expr, op: Op, r: Expr, fs1: FState, t: Test, fs: FState, scope: seq<Slot>,
      env: seq<Val>, c0: Conf,
    o: Outcome, o1: Outcome, o2: Outcome, o3: Outcome, r1: EvalResult) returns (o': Outcome)
    requires Start(fs, scope) && Ready(fs) && Ready(t.after) && One(fs, fs1) && r1.EOk? && |r1.env| == |scope| == |env|
    requires CircuitPhases(cx, op, fs1, t, CompE(r, t.after), fs, scope)
      && CompE(e, fs) == CircuitEnd(CompE(r, t.after), t, fs)
    requires o.Ok? && o1.Ok? && o2.Ok? && o1.st.w == r1.w && o2.st.w == r1.w
      && Kept(o.st.regs, o2.st.regs, |scope|, |fs.vlocals|)
    requires Computes(cx, r, t.after, scope, r1.env, c0, o2, o3)
    requires !Decides(op, Deref(r1.o, r1.env))
    requires EvalAfter(cx.prims, e, scope, env, o) == CircuitMeaning(cx.prims, op, r, scope, r1)
    ensures Computes(cx, e, fs, scope, env, c0, o, o')
  {
    hide Eval, CompE, Arrive, Effect, Agree, CircuitEnd, CircuitMoved, Pop, Add, Fuse, Circuit;
    var fs3 := CompE(r, t.after);
    var n := |fs.vlocals|;
    CircuitRoom(op, fs1, t, fs3, fs, scope);
    SecondTop(fs3, t, fs, scope);
    var st := SimJoin(cx, fs3, t.after, n, scope, c0, o3);
    var r2 := EvalAfter(cx.prims, r, scope, r1.env, o2);
    if o3.Raise? {
      o' := o3;
      ArriveRaised(cx, CompE(e, fs), c0, o3.w);
    } else {
      o' := Ok(st);
      ArriveClosed(cx, CompE(e, fs), c0, st);
      JoinYields(o, o2, o3, st, r2, Top(fs3), |fs.vlocals|, |scope|);
    }
  }

  /** The second operand, read at once, is in the common register. */
  lemma JoinYields(o: Outcome, o2: Outcome, o3: Outcome, st: State, r2: EvalResult, t3: int, n: int, nl: int)
    requires o.Ok? && o2.Ok? && o3.Ok? && Yields(o2, o3, r2, t3, n + 1, nl) && 0 < nl <= n
      && (r2.EOk? ==> |r2.env| == nl)
    requires Kept(o.st.regs, o2.st.regs, nl, n) && Moved(o3.st, st, n, t3, n + 1)
    ensures r2.EOk? && Yields(o, Ok(st), EOk(Value(Deref(r2.o, r2.env)), r2.env, r2.w), n, n, nl)
  {
  }

  lemma SecondTop(fs3: FState, t: Test, fs: FState, scope: seq<Slot>)
    requires Start(fs, scope) && TestPushed(fs, t) && Start(t.after, scope) && One(t.after, fs3) && Start(fs3, scope)
    ensures Top(fs3) != |fs.vlocals| && |t.after.vlocals| == |fs.vlocals| + 1 && |t.after.targets| > 0
      && Top(t.after) == |fs.vlocals|
    ensures var s := Snooze(fs3);
      0 <= Top(s) < |s.vlocals| && CircuitMoved(fs3, t, fs) == MoveUnless(Pop(s), |fs.vlocals|, Top(fs3))
    ensures |CircuitEnd(fs3, t, fs).code| == |CircuitMoved(fs3, t, fs).code|
  {
    hide Add, Fuse;
    TargetRange(t.after, fs3, scope);
    PopOne(t.after, Snooze(fs3));
  }

  // --- ?:

  /** The states the code of `c ? t : f` goes through. */
  datatype Branches = Branches(fs1: FState, jz: FState, fs2: FState, jmp: FState, fs3: FState)

  function CondStates(e: Expr, fs: FState): (b: Branches)
    requires Ready(fs) && e.Cond?
    ensures One(fs, b.fs1) && CondPushed(fs, b.jz) && One(PushTemp(b.jz), b.fs2) && ElsePushed(b.jz, b.jmp)
      && One(b.jmp, b.fs3)
    ensures b.fs1 == CompE(e.c, fs) && b.jz == CondTest(b.fs1, fs) && Ready(PushTemp(b.jz))
      && b.fs2 == CompE(e.t, PushTemp(b.jz))
    ensures b.jmp == CondElse(b.fs2, b.jz, fs) && Ready(b.jmp) && b.fs3 == CompE(e.f, b.jmp)
  {
    hide CondTest, CondElse, CompE, One, CondPushed, ElsePushed, Ready;
    var fs1 := CompE(e.c, fs);
    var jz := CondTest(fs1, fs);
    CondReady(jz, fs);
    var fs2 := CompE(e.t, PushTemp(jz));
    var jmp := CondElse(fs2, jz, fs);
    Branches(fs1, jz, fs2, jmp, CompE(e.f, jmp))
  }

  lemma CondCode(e: Expr, fs: FState)
    requires Ready(fs) && e.Cond?
    ensures var b := CondStates(e, fs); CompE(e, fs) == CondEnd(b.fs3, b.jmp, b.jz, fs)
  {
    hide Circuit, CircuitEnd, One, Same, Ready, TestPushed, Pop, Top, CompConst, CompPlace, LoadEnd, UnaryEnd, BinEnd,
      CondTest,
      CondElse, CondEnd, AssignEnd, OpAssignEnd, IncDecEnd, Result, ArrayEnd, CompElements, CompMethod, CompCall,
        CompFunction,
      CondStates, CondPushed, ElsePushed, PushTemp, Grown, Pushed;
  }

  lemma CondShape(e: Expr, fs: FState, scope: seq<Slot>)
    requires Start(fs, scope) && Ready(fs) && e.Cond? && WellFormed(e) && Fits(CompE(e, fs))
    ensures var b := CondStates(e, fs);
      && Laid(fs, b.fs1, scope) && Laid(b.fs1, b.jz, scope) && !Open(b.jz) && Frontier(b.fs1) <= Pos(b.jz)
      && Laid(b.jz, PushTemp(b.jz), scope) && Start(PushTemp(b.jz), scope) && !Open(PushTemp(b.jz))
      && Laid(PushTemp(b.jz), b.fs2, scope) && Laid(b.fs2, b.jmp, scope) && !Open(b.jmp) && Laid(b.jmp, b.fs3, scope)
      && Fits(b.fs1) && Fits(b.fs2) && Fits(b.fs3) && Fits(PushTemp(b.jz)) && Fits(b.jmp)
      && Laid(b.fs1, CompE(e, fs), scope)
      && (LastIsCmp(b.fs1) <==> EndsCmp(e.c, LastIsCmp(fs), scope))
  {
    hide CondTest, CondElse, CondEnd, DestSafe, Extends, Fits, InScope, CompE, One, CondPushed, ElsePushed, EndsCmp,
      Open;
    var b := CondStates(e, fs);
    CondCode(e, fs);
    CondGrows(b.fs3, b.jmp, b.fs2, b.jz, b.fs1, fs);
    LayE(e.c, fs, scope);
    LaidStart(fs, b.fs1, scope);
    LayCondTest(b.fs1, fs, scope);
    LaidStart(b.fs1, b.jz, scope);
    LayPushTemp(b.jz, PushTemp(b.jz), scope);
    LayE(e.t, PushTemp(b.jz), scope);
    LaidStart(PushTemp(b.jz), b.fs2, scope);
    LayCondElse(b.fs2, b.jz, fs, scope);
    LaidStart(b.fs2, b.jmp, scope);
    LayE(e.f, b.jmp, scope);
    LaidStart(b.jmp, b.fs3, scope);
    LaidTrans(b.jz, PushTemp(b.jz), b.fs2, scope);
    LaidTrans(b.jz, b.fs2, b.jmp, scope);
    LayCondEnd(b.fs3, b.jmp, b.jz, b.fs1, fs, scope);
  }

  /** What the final code says about the pieces of `?:`, whose two jumps are patched. */
  ghost predicate CondPhases(cx: Context, b: Branches, fs: FState, scope: seq<Slot>)
    requires One(fs, b.fs1) && CondPushed(fs, b.jz) && One(PushTemp(b.jz), b.fs2) && ElsePushed(b.jz, b.jmp)
      && One(b.jmp, b.fs3)
    requires |b.jmp.targets| > 0
  {
    var u := MoveInto(b.fs3, b.jmp);
    && PatchedAt(cx, Pos(b.jz), Last(b.jz.code), Pos(b.jmp) - Pos(b.jz))
    && PatchedAt(cx, Pos(b.jmp), Ins(JMP), Pos(u) - Pos(b.jmp))
    && (forall k :: Frontier(b.fs1) <= k < Pos(b.jz) ==> cx.code[k] == b.jz.code[k])
    && (forall k :: Pos(b.jz) < k < Pos(b.jmp) ==> cx.code[k] == b.jmp.code[k])
    && Agree(cx, Snooze(u), |b.jmp.code|)
  }

  lemma CondAgree(cx: Context, e: Expr, fs: FState, scope: seq<Slot>)
    requires Start(fs, scope) && Ready(fs) && e.Cond? && WellFormed(e) && Fits(CompE(e, fs))
      && Agree(cx, CompE(e, fs), Frontier(fs))
    ensures var b := CondStates(e, fs);
      && |b.jmp.targets| > 0 && CondPhases(cx, b, fs, scope) && Agree(cx, b.fs1, Frontier(fs))
  {
    hide CondTest, CondElse, Fits, CompE, CondStates, MoveInto, DestSafe, InScope, Agree, CondEnd, Laid, Frontier,
      Open, Grown, Pushed, ElsePushed, CondPushed, PatchedAt;
    var b := CondStates(e, fs);
    CondCode(e, fs);
    CondShape(e, fs, scope);
    CondJoin(b, fs, scope);
    AgreeSplit(cx, fs, b.fs1, CompE(e, fs), scope);
    CondPatches(cx, b, CompE(e, fs), MoveInto(b.fs3, b.jmp), scope);
  }

  lemma CondJoin(b: Branches, fs: FState, scope: seq<Slot>)
    requires Ready(fs) && CondPushed(fs, b.jz) && One(PushTemp(b.jz), b.fs2) && ElsePushed(b.jz, b.jmp)
      && One(b.jmp, b.fs3)
    requires b.jmp == CondElse(b.fs2, b.jz, fs) && Laid(b.fs2, b.jmp, scope) && Laid(b.jmp, b.fs3, scope)
    ensures |b.jmp.targets| > 0
    ensures var u := MoveInto(b.fs3, b.jmp);
      && |u.code| >= |b.jmp.code| > |b.jz.code| > 0
      && CondEnd(b.fs3, b.jmp, b.jz, fs)
      == Patch(Patch(Snooze(u), Pos(b.jmp), Pos(u) - Pos(b.jmp)), Pos(b.jz), Pos(b.jmp) - Pos(b.jz))
      && Laid(b.fs3, Snooze(u), scope) && Last(b.jmp.code) == Ins(JMP)
  {
    hide Fuse, MoveInto, CondElse, Shape;
    ElseTargets(b, fs);
    LayJoin(b.fs3, b.jmp, scope);
    LaySnooze(b.fs3, MoveInto(b.fs3, b.jmp), scope);
    ElseJumps(b, fs);
  }

  lemma ElseTargets(b: Branches, fs: FState)
    requires ElsePushed(b.jz, b.jmp)
    ensures |b.jmp.targets| > 0
  {
  }

  lemma ElseJumps(b: Branches, fs: FState)
    requires Ready(fs) && CondPushed(fs, b.jz) && One(PushTemp(b.jz), b.fs2) && b.jmp == CondElse(b.fs2, b.jz, fs)
    ensures |b.jmp.code| > 0 && Last(b.jmp.code) == Ins(JMP)
    ensures b.jmp.code == MoveInto(b.fs2, PushTemp(b.jz)).code + [Ins(JMP)]
    ensures b.jmp.lits == MoveInto(b.fs2, PushTemp(b.jz)).lits
  {
    hide MoveInto;
  }

  lemma CondPatches(cx: Context, b: Branches, final: FState, u: FState, scope: seq<Slot>)
    requires |u.code| >= |b.jmp.code| > |b.jz.code| > 0 && Frontier(b.fs1) <= Pos(b.jz)
    requires final == Patch(Patch(Snooze(u), Pos(b.jmp), Pos(u) - Pos(b.jmp)), Pos(b.jz), Pos(b.jmp) - Pos(b.jz))
    requires Agree(cx, final, Frontier(b.fs1)) && !Open(b.jmp) && !Open(b.jz)
    requires Laid(b.jz, PushTemp(b.jz), scope) && Laid(PushTemp(b.jz), b.fs2, scope) && Laid(b.fs2, b.jmp, scope)
    requires Laid(b.jmp, b.fs3, scope) && Laid(b.fs3, Snooze(u), scope) && Last(b.jmp.code) == Ins(JMP)
    ensures PatchedAt(cx, Pos(b.jz), Last(b.jz.code), Pos(b.jmp) - Pos(b.jz))
    ensures PatchedAt(cx, Pos(b.jmp), Ins(JMP), Pos(u) - Pos(b.jmp))
    ensures forall k :: Frontier(b.fs1) <= k < Pos(b.jz) ==> cx.code[k] == b.jz.code[k]
    ensures forall k :: Pos(b.jz) < k < Pos(b.jmp) ==> cx.code[k] == b.jmp.code[k]
    ensures Agree(cx, Snooze(u), |b.jmp.code|)
  {
    hide DestSafe, InScope;
    LaidTrans(b.jz, PushTemp(b.jz), b.fs2, scope);
    LaidTrans(b.jz, b.fs2, b.jmp, scope);
    LaidTrans(b.jmp, b.fs3, Snooze(u), scope);
    LaidTrans(b.jz, b.jmp, Snooze(u), scope);
    assert Frontier(b.jz) == |b.jz.code| && Frontier(b.jmp) == |b.jmp.code|
      && Frontier(final) == |final.code| == |u.code|;
  }

  /** The condition's jump: where it leads, with every variable and temporary where it was. */
  lemma SimCond(cx: Context, e: Expr, b: Branches, fs: FState, scope: seq<Slot>, c0: Conf, o: Outcome, o1: Outcome,
      r1: EvalResult)
    returns (st: State)
    requires Start(fs, scope) && Ready(fs) && e.Cond? && b == CondStates(e, fs) && |b.jmp.targets| > 0
      && CondPhases(cx, b, fs, scope)
    requires Start(b.fs1, scope) && Fits(b.fs1) && Arrive(cx, b.fs1, c0, o1)
    requires Yields(o, o1, r1, Top(b.fs1), |fs.vlocals|, |scope|) && (r1.EOk? ==> |r1.env| == |scope|)
    requires LastIsCmp(b.fs1) ==> Last(b.fs1.code).a0 == Top(b.fs1) == |fs.vlocals|
    ensures o1.Raise? ==> Reach(cx, c0, Raised(o1.w))
    ensures o1.Ok? ==>
      r1.EOk? && Reach(cx, c0, At(if IsFalse(Deref(r1.o, r1.env)) then |b.jmp.code| else |b.jz.code|, st), 1)
    ensures o1.Ok? ==> st.w == r1.w && Locals(st.regs, r1.env) && Kept(o.st.regs, st.regs, |scope|, |fs.vlocals|)
  {
    hide Effect, Add, Fuse, Arrive, Reach, CompE, CondElse, MoveInto, CondStates, One;
    CondSizes(e, b, fs);
    var t := Top(b.fs1);
    var p := CondPopped(b.fs1, fs, scope);
    SameCodeArrive(cx, b.fs1, p, c0, o1);
    var regs := TestArrive(cx, p, t, 0, Pos(b.jmp) - Pos(b.jz), c0, o1);
    st := State(regs, if o1.Ok? then o1.st.w else 0);
    if o1.Ok? {
      OperandValue(r1.o, o1.st.regs, t, |fs.vlocals|, r1.env);
    }
  }

  lemma CondPopped(fs1: FState, fs: FState, scope: seq<Slot>) returns (p: FState)
    requires Start(fs, scope) && Ready(fs) && One(fs, fs1) && Start(fs1, scope) && Fits(fs1)
    ensures p.code == fs1.code && p.opt == fs1.opt && LastIsCmp(p) == LastIsCmp(fs1) && Frontier(p) == Frontier(fs1)
    ensures CondTest(fs1, fs) == Add(p, Ins(JZ, Top(fs1))) && 0 <= Top(fs1) < 255
    ensures LastIsCmp(fs1) ==> 0 <= Last(fs1.code).a1 < 0xFF
    ensures Top(fs1) < |scope| || Top(fs1) == |fs.vlocals|
  {
    hide Add, Fuse;
    PopOne(fs, fs1);
    TargetRange(fs, fs1, scope);
    p := Pop(fs1);
  }

  lemma CondSizes(e: Expr, b: Branches, fs: FState)
    requires Ready(fs) && e.Cond? && b == CondStates(e, fs)
    ensures One(fs, b.fs1) && b.jz == CondTest(b.fs1, fs) && |b.jmp.code| > |b.jz.code| > 0 && |b.fs1.targets| > 0
  {
    hide CompE, CondTest, CondElse;
  }

  /** A comparison pending at the end of a condition wrote the register that is tested. */
  lemma TestsCmp(e: Expr, fs: FState, scope: seq<Slot>)
    requires Start(fs, scope) && Ready(fs) && WellFormed(e) && Fits(CompE(e, fs)) && !BareLocal(e, scope)
    requires LastIsCmp(CompE(e, fs))
    ensures Last(CompE(e, fs).code).a0 == Top(CompE(e, fs)) == |fs.vlocals|
  {
    hide CompPlace, CondTest, CondElse, CondEnd, AssignEnd, OpAssignEnd, IncDecEnd, CompElements, CompMethod, CompCall,
      CompFunction, Pop, WellFormed;
    LayE(e, fs, scope);
    var fs1 := CompE(e.l, fs);
    OneReady(fs, fs1);
    var fs2 := CompE(e.r, fs1);
    CmpResult(e.op, e.imm, fs2, fs1, fs);
  }

  lemma CmpResult(op: Op, imm: int, fs2: FState, fs1: FState, fs: FState)
    requires One(fs, fs1) && One(fs1, fs2) && op == CMP && |fs.vlocals| <= fs.stacksize
    ensures Fits(BinEnd(op, imm, fs2, fs1, fs)) ==> Last(BinEnd(op, imm, fs2, fs1, fs).code).a0 == |fs.vlocals|
    ensures |BinEnd(op, imm, fs2, fs1, fs).code| > 0
  {
    PopTwo(fs, fs1, fs2);
  }

  /** A branch's result goes to the common register. */
  lemma SimInto(cx: Context, fs2: FState, before: FState, trg: int, scope: seq<Slot>, c0: Conf,
      o2: Outcome) returns (st: State)
    requires Start(before, scope) && Start(fs2, scope) && |before.targets| > 0 && Top(before) == trg && 0 <= trg < 255
    requires One(before, fs2) && Fits(fs2) && Top(fs2) != trg && Arrive(cx, fs2, c0, o2)
    requires Agree(cx, Snooze(MoveInto(fs2, before)), Frontier(fs2))
    ensures o2.Raise? ==> Reach(cx, c0, Raised(o2.w))
    ensures o2.Ok? ==>
      Reach(cx, c0, At(|MoveInto(fs2, before).code|, st)) && Moved(o2.st, st, trg, Top(fs2), |before.vlocals|)
  {
    hide Effect, Fuse, Arrive;
    st := State(map[], 0);
    PopOne(before, fs2);
    TargetRange(before, fs2, scope);
    var p := Pop(fs2);
    assert Start(p, scope);
    SameCodeArrive(cx, fs2, p, c0, o2);
    var m := MoveInto(fs2, before);
    assert m == Add(p, Ins(MOVE, trg, Top(fs2)));
    AddExtends(p, Ins(MOVE, trg, Top(fs2)));
    var o3 := SimMove(cx, p, trg, Top(fs2), scope, c0, o2);
    RunPending(cx, m, c0, o3);
    if o2.Ok? {
      st := o3.st;
    }
  }

  lemma CondUnfold(pr: Prims, e: Expr, scope: seq<Slot>, env: seq<Val>, o: Outcome)
    requires e.Cond?
    ensures EvalAfter(pr, e, scope, env, o) == match EvalAfter(pr, e.c, scope, env, o)
      case EThrow(w) => EThrow(w)
      case EOk(a, env1, w1) => EvalValue(pr, if IsFalse(Deref(a, env1)) then e.f else e.t, scope, env1, w1)
  {
  }

  ghost predicate CondReadyTo(cx: Context, e: Expr, b: Branches, fs: FState, scope: seq<Slot>, env: seq<Val>, c0: Conf,
      o: Outcome)
    requires Ready(fs) && e.Cond?
  {
    && b == CondStates(e, fs) && Begins(cx, e.c, fs, scope, env, c0, o) && Start(fs, scope)
    && |b.jmp.targets| > 0 && CondPhases(cx, b, fs, scope) && WellFormed(e.t) && WellFormed(e.f)
    && Safe(e.t, false, scope) && Safe(e.f, false, scope)
    && Start(b.fs1, scope) && Start(PushTemp(b.jz), scope) && Start(b.fs2, scope) && Start(b.jmp, scope)
    && Start(b.fs3, scope)
    && Fits(b.fs1) && Fits(b.fs2) && Fits(b.fs3) && Fits(PushTemp(b.jz)) && Fits(b.jmp)
    && !Open(PushTemp(b.jz)) && !Open(b.jmp) && |fs.vlocals| < 255
    && (LastIsCmp(b.fs1) ==> Last(b.fs1.code).a0 == Top(b.fs1) == |fs.vlocals|)
  }

  lemma CondBegins(cx: Context, e: Expr, fs: FState, scope: seq<Slot>, env: seq<Val>, c0: Conf, o: Outcome)
    requires Begins(cx, e, fs, scope, env, c0, o) && e.Cond?
    ensures CondReadyTo(cx, e, CondStates(e, fs), fs, scope, env, c0, o)
  {
    hide Arrive, Eval, Effect, Fits, InScope, DestSafe, LastIsCmp, Open, Frontier, Agree, CondPhases, CompE, One,
      Locals, CondStates, EndsCmp, Laid, Ready, BareLocal, Grown;
    var b := CondStates(e, fs);
    CondShape(e, fs, scope);
    CondAgree(cx, e, fs, scope);
    LaidStart(fs, b.fs1, scope);
    LaidStart(PushTemp(b.jz), b.fs2, scope);
    LaidStart(b.fs2, b.jmp, scope);
    LaidStart(b.jmp, b.fs3, scope);
    CondPending(e, b, fs, scope);
    CondRoom(b, fs);
  }

  lemma CondPending(e: Expr, b: Branches, fs: FState, scope: seq<Slot>)
    requires Start(fs, scope) && Ready(fs) && e.Cond? && WellFormed(e) && b.fs1 == CompE(e.c, fs) && Fits(b.fs1)
    requires BareLocal(e.c, scope) ==> !LastIsCmp(fs)
    requires LastIsCmp(b.fs1) <==> EndsCmp(e.c, LastIsCmp(fs), scope)
    ensures LastIsCmp(b.fs1) ==> Last(b.fs1.code).a0 == Top(b.fs1) == |fs.vlocals|
  {
    hide CompE, Fits;
    if LastIsCmp(b.fs1) {
      TestsCmp(e.c, fs, scope);
    }
  }

  lemma CondRoom(b: Branches, fs: FState)
    requires CondPushed(fs, b.jz) && Fits(PushTemp(b.jz))
    ensures |fs.vlocals| < 255
  {
  }

  lemma SimCondE(cx: Context, e: Expr, fs: FState, scope: seq<Slot>, env: seq<Val>, c0: Conf,
      o: Outcome) returns (o': Outcome)
    requires Begins(cx, e, fs, scope, env, c0, o) && e.Cond?
    ensures Computes(cx, e, fs, scope, env, c0, o, o')
    decreases e, 0
  {
    hide Arrive, Effect, CompE, Agree, Fits, Safe, WellFormed, InScope, DestSafe, Eval, Laid, EndsCmp, Open, Frontier,
      Locals, Kept, CondStates, CondPhases, Reach, One, Rd, Start, Yields, CondReadyTo, EvalAfter;
    CondBegins(cx, e, fs, scope, env, c0, o);
    CondCode(e, fs);
    var b := CondStates(e, fs);
    CondSub(cx, e, b, fs, scope, env, c0, o);
    var o1 := SimE(cx, e.c, fs, scope, env, c0, o);
    RanAfter(cx, e.c, fs, scope, env, c0, o, o1);
    var r1 := EvalAfter(cx.prims, e.c, scope, env, o);
    CondUnfold(cx.prims, e, scope, env, o);
    var st := SimCondTest(cx, e, b, fs, scope, env, c0, o, o1, r1);
    if o1.Raise? {
      o' := o1;
      ArriveRaised(cx, CompE(e, fs), c0, o1.w);
      RaiseYields(o, o1, r1, Top(CompE(e, fs)), |fs.vlocals|, |scope|, Top(b.fs1));
    } else if IsFalse(Deref(r1.o, r1.env)) {
      FalseBegins(cx, e, b, fs, scope, env, c0, o, r1, st);
      var o3 := SimE(cx, e.f, b.jmp, scope, r1.env, c0, Ok(st));
      o' := SimFalse(cx, e, b, fs, scope, env, c0, o, o3, r1, st);
    } else {
      TrueBegins(cx, e, b, fs, scope, env, c0, o, r1, st);
      var o3 := SimE(cx, e.t, PushTemp(b.jz), scope, r1.env, c0, Ok(st));
      o' := SimTrue(cx, e, b, fs, scope, env, c0, o, o3, r1, st);
    }
  }

  lemma RaiseYields(o: Outcome, o1: Outcome, r1: EvalResult, t: int, n: int, nl: int, t1: int)
    requires Yields(o, o1, r1, t1, n, nl) && o1.Raise?
    ensures r1 == EThrow(o1.w) && Yields(o, o1, r1, t, n, nl)
  {
  }

  lemma CondSub(cx: Context, e: Expr, b: Branches, fs: FState, scope: seq<Slot>, env: seq<Val>, c0: Conf, o: Outcome)
    requires Ready(fs) && e.Cond? && CondReadyTo(cx, e, b, fs, scope, env, c0, o)
    ensures Begins(cx, e.c, fs, scope, env, c0, o) && |b.fs1.targets| > 0 && b.fs1 == CompE(e.c, fs)
  {
    hide CompE, Safe, WellFormed, CondStates;
  }

  lemma SimCondTest(cx: Context, e: Expr, b: Branches, fs: FState, scope: seq<Slot>, env: seq<Val>, c0: Conf,
      o: Outcome, o1: Outcome,
    r1: EvalResult) returns (st: State)
    requires Ready(fs) && e.Cond? && CondReadyTo(cx, e, b, fs, scope, env, c0, o)
      && Computes(cx, e.c, fs, scope, env, c0, o, o1)
    requires r1 == EvalAfter(cx.prims, e.c, scope, env, o)
    ensures o1.Raise? ==> Reach(cx, c0, Raised(o1.w))
    ensures o1.Ok? ==>
      r1.EOk? && Reach(cx, c0, At(if IsFalse(Deref(r1.o, r1.env)) then |b.jmp.code| else |b.jz.code|, st))
    ensures o1.Ok? ==>
      o.Ok? && st.w == r1.w && Locals(st.regs, r1.env) && Kept(o.st.regs, st.regs, |scope|, |fs.vlocals|)
    ensures o1.Ok? ==> |r1.env| == |scope|
  {
    hide CompE, Safe, WellFormed, CondStates, CondPhases, Arrive, Effect, Eval;
    st := SimCond(cx, e, b, fs, scope, c0, o, o1, r1);
    if o1.Ok? {
      ReachWeaken(cx, c0, At(if IsFalse(Deref(r1.o, r1.env)) then |b.jmp.code| else |b.jz.code|, st), 1, 0);
    }
  }

  lemma FalseBegins(cx: Context, e: Expr, b: Branches, fs: FState, scope: seq<Slot>, env: seq<Val>, c0: Conf,
      o: Outcome, r1: EvalResult,
    st: State)
    requires Ready(fs) && e.Cond? && CondReadyTo(cx, e, b, fs, scope, env, c0, o)
    requires r1.EOk? && |r1.env| == |scope| && Reach(cx, c0, At(|b.jmp.code|, st)) && Locals(st.regs, r1.env)
    ensures Begins(cx, e.f, b.jmp, scope, r1.env, c0, Ok(st))
  {
    hide CompE, Safe, WellFormed, Effect, Eval, MoveInto, CondTest, CondElse, Reach, Grown;
    ArriveClosed(cx, b.jmp, c0, st);
    LayE(e.f, b.jmp, scope);
    LayMovedInto(b.fs3, b.jmp, scope);
    AgreeSplit(cx, b.jmp, b.fs3, Snooze(MoveInto(b.fs3, b.jmp)), scope);
  }

  lemma LayMovedInto(fs3: FState, before: FState, scope: seq<Slot>)
    requires Start(before, scope) && |before.targets| > 0 && One(before, fs3) && Start(fs3, scope)
    ensures Laid(fs3, Snooze(MoveInto(fs3, before)), scope) && !Open(Snooze(MoveInto(fs3, before)))
  {
    hide MoveInto;
    LayJoin(fs3, before, scope);
    LaySnooze(fs3, MoveInto(fs3, before), scope);
  }

  lemma TrueBegins(cx: Context, e: Expr, b: Branches, fs: FState, scope: seq<Slot>, env: seq<Val>, c0: Conf,
      o: Outcome, r1: EvalResult,
    st: State)
    requires Ready(fs) && e.Cond? && CondReadyTo(cx, e, b, fs, scope, env, c0, o)
    requires r1.EOk? && |r1.env| == |scope| && Reach(cx, c0, At(|b.jz.code|, st)) && Locals(st.regs, r1.env)
    ensures Begins(cx, e.t, PushTemp(b.jz), scope, r1.env, c0, Ok(st))
  {
    hide CompE, Safe, WellFormed, Effect, Eval, MoveInto, CondTest, CondElse, Reach, Grown;
    var p := PushTemp(b.jz);
    ArriveClosed(cx, p, c0, st);
    LayE(e.t, p, scope);
    LayMovedInto(b.fs2, p, scope);
    LayMovedInto(b.fs3, b.jmp, scope);
    LayE(e.f, b.jmp, scope);
    TrueAgree(cx, e, b, fs, scope);
  }

  /** The first branch lies between the two jumps. */
  lemma TrueAgree(cx: Context, e: Expr, b: Branches, fs: FState, scope: seq<Slot>)
    requires Ready(fs) && e.Cond? && b == CondStates(e, fs) && |b.jmp.targets| > 0 && CondPhases(cx, b, fs, scope)
    requires Start(PushTemp(b.jz), scope) && Start(b.fs2, scope) && !Open(PushTemp(b.jz))
      && Laid(PushTemp(b.jz), b.fs2, scope)
    requires b.jmp.lits <= b.fs3.lits <= cx.lits
    ensures Agree(cx, Snooze(MoveInto(b.fs2, PushTemp(b.jz))), |b.jz.code|)
    ensures Agree(cx, b.fs2, |b.jz.code|)
  {
    hide CompE, MoveInto, CondTest, CondElse, DestSafe, InScope;
    ElseJumps(b, fs);
    LayMovedInto(b.fs2, PushTemp(b.jz), scope);
    var m := MoveInto(b.fs2, PushTemp(b.jz));
    assert m.code == b.jmp.code[..Pos(b.jmp)];
    AgreeSub(cx, b.fs2, Snooze(m), |b.jz.code|);
  }

  /** Sizes and targets at the common end. */
  lemma CondEnds(cx: Context, e: Expr, b: Branches, fs: FState, scope: seq<Slot>, env: seq<Val>, c0: Conf, o: Outcome)
    requires Ready(fs) && e.Cond? && CondReadyTo(cx, e, b, fs, scope, env, c0, o)
    ensures !Open(CompE(e, fs)) && Top(CompE(e, fs)) == |fs.vlocals| && 0 < |scope| <= |fs.vlocals|
    ensures |CompE(e, fs).code| == |MoveInto(b.fs3, b.jmp).code|
    ensures |b.jmp.vlocals| == |fs.vlocals| + 1 == |PushTemp(b.jz).vlocals|
      && Top(b.jmp) == |fs.vlocals| == Top(PushTemp(b.jz))
    ensures Top(b.fs3) != |fs.vlocals| && Top(b.fs2) != |fs.vlocals|
    ensures b.jmp.code == MoveInto(b.fs2, PushTemp(b.jz)).code + [Ins(JMP)]
  {
    hide CompE, MoveInto, CondTest, CondElse, DestSafe, Agree, CondPhases, Begins, WellFormed, Safe;
    CondCode(e, fs);
    ElseJumps(b, fs);
    TargetRange(b.jmp, b.fs3, scope);
    TargetRange(PushTemp(b.jz), b.fs2, scope);
  }

  lemma SimFalse(cx: Context, e: Expr, b: Branches, fs: FState, scope: seq<Slot>, env: seq<Val>, c0: Conf, o: Outcome,
      o3: Outcome,
    r1: EvalResult, st: State) returns (o': Outcome)
    requires Ready(fs) && e.Cond? && CondReadyTo(cx, e, b, fs, scope, env, c0, o)
    requires r1.EOk? && |r1.env| == |scope| == |env| && o.Ok? && st.w == r1.w
      && Kept(o.st.regs, st.regs, |scope|, |fs.vlocals|)
    requires Ready(b.jmp) && Computes(cx, e.f, b.jmp, scope, r1.env, c0, Ok(st), o3)
    requires EvalAfter(cx.prims, e, scope, env, o) == EvalValue(cx.prims, e.f, scope, r1.env, r1.w)
    ensures Computes(cx, e, fs, scope, env, c0, o, o')
  {
    hide CompE, Safe, WellFormed, Effect, Eval, MoveInto, CondTest, CondElse, Reach, Grown, DestSafe, InScope, Arrive,
      Agree, Locals, CondStates;
    CondEnds(cx, e, b, fs, scope, env, c0, o);
    LayE(e.f, b.jmp, scope);
    AgreeFrom(cx, Snooze(MoveInto(b.fs3, b.jmp)), |b.jmp.code|, Frontier(b.fs3));
    var st' := SimInto(cx, b.fs3, b.jmp, |fs.vlocals|, scope, c0, o3);
    o' := BranchEnd(cx, e, e.f, fs, scope, env, c0, o, o3, EvalAfter(cx.prims, e.f, scope, r1.env, Ok(st)), st, st',
      Top(b.fs3));
  }

  /** Both branches end alike. */
  lemma BranchEnd(cx: Context, e: Expr, br: Expr, fs: FState, scope: seq<Slot>, env: seq<Val>, c0: Conf, o: Outcome,
      o3: Outcome,
    r2: EvalResult, st: State, st': State, t: int) returns (o': Outcome)
    requires Ready(fs) && 0 < |scope| <= |fs.vlocals| && o.Ok? && Kept(o.st.regs, st.regs, |scope|, |fs.vlocals|)
    requires !Open(CompE(e, fs)) && Top(CompE(e, fs)) == |fs.vlocals|
    requires Yields(Ok(st), o3, r2, t, |fs.vlocals| + 1, |scope|) && (r2.EOk? ==> |r2.env| == |scope|)
    requires o3.Raise? ==> Reach(cx, c0, Raised(o3.w))
    requires o3.Ok? ==>
      Reach(cx, c0, At(|CompE(e, fs).code|, st')) && Moved(o3.st, st', |fs.vlocals|, t, |fs.vlocals| + 1)
    requires EvalAfter(cx.prims, e, scope, env, o) == match r2
      case EThrow(w) => EThrow(w)
      case EOk(a, env1, w1) => EOk(Value(Deref(a, env1)), env1, w1)
    ensures Computes(cx, e, fs, scope, env, c0, o, o')
  {
    hide CompE, Arrive, Reach, EvalAfter;
    if o3.Raise? {
      o' := o3;
      ArriveRaised(cx, CompE(e, fs), c0, o3.w);
    } else {
      o' := Ok(st');
      ArriveClosed(cx, CompE(e, fs), c0, st');
      JoinYields(o, Ok(st), o3, st', r2, t, |fs.vlocals|, |scope|);
    }
  }

  lemma SimTrue(cx: Context, e: Expr, b: Branches, fs: FState, scope: seq<Slot>, env: seq<Val>, c0: Conf, o: Outcome,
      o3: Outcome,
    r1: EvalResult, st: State) returns (o': Outcome)
    requires Ready(fs) && e.Cond? && CondReadyTo(cx, e, b, fs, scope, env, c0, o)
    requires r1.EOk? && |r1.env| == |scope| == |env| && o.Ok? && st.w == r1.w
      && Kept(o.st.regs, st.regs, |scope|, |fs.vlocals|)
    requires Ready(PushTemp(b.jz)) && Computes(cx, e.t, PushTemp(b.jz), scope, r1.env, c0, Ok(st), o3)
    requires EvalAfter(cx.prims, e, scope, env, o) == EvalValue(cx.prims, e.t, scope, r1.env, r1.w)
    ensures Computes(cx, e, fs, scope, env, c0, o, o')
  {
    hide CompE, Safe, WellFormed, Effect, Eval, MoveInto, CondTest, CondElse, Reach, Grown, DestSafe, InScope, Arrive,
      Locals, CondStates, Agree;
    var p := PushTemp(b.jz);
    CondEnds(cx, e, b, fs, scope, env, c0, o);
    LayE(e.t, p, scope);
    LayE(e.f, b.jmp, scope);
    LayMovedInto(b.fs3, b.jmp, scope);
    JmpLits(cx, b, fs, scope);
    TrueAgree(cx, e, b, fs, scope);
    AgreeFrom(cx, Snooze(MoveInto(b.fs2, p)), |b.jz.code|, Frontier(b.fs2));
    var st' := SimInto(cx, b.fs2, p, |fs.vlocals|, scope, c0, o3);
    if o3.Ok? {
      JumpOver(cx, Pos(b.jmp), |CompE(e, fs).code|, c0, st');
    }
    o' := BranchEnd(cx, e, e.t, fs, scope, env, c0, o, o3, EvalAfter(cx.prims, e.t, scope, r1.env, Ok(st)), st, st',
      Top(b.fs2));
  }

  lemma JmpLits(cx: Context, b: Branches, fs: FState, scope: seq<Slot>)
    requires One(fs, b.fs1) && CondPushed(fs, b.jz) && One(PushTemp(b.jz), b.fs2) && ElsePushed(b.jz, b.jmp)
      && One(b.jmp, b.fs3)
    requires |b.jmp.targets| > 0 && CondPhases(cx, b, fs, scope) && Laid(b.fs3, Snooze(MoveInto(b.fs3, b.jmp)), scope)
    ensures b.jmp.lits <= b.fs3.lits <= cx.lits
  {
    hide MoveInto;
  }

  lemma JumpOver(cx: Context, j: int, target: int, c0: Conf, st: State)
    requires PatchedAt(cx, j, Ins(JMP), target - 1 - j) && Reach(cx, c0, At(j, st))
    ensures Reach(cx, c0, At(target, st))
  {
    ReachStep(cx, At(j, st));
    ReachTrans(cx, c0, At(j, st), At(target, st), 0, 1);
    ReachWeaken(cx, c0, At(target, st), 1, 0);
  }

  // --- array literals

  function ElementsAfter(pr: Prims, es: seq<Expr>, arr: Val, scope: seq<Slot>, env: seq<Val>,
      o: Outcome): (res: EvalResult)
    ensures res.EOk? ==> |res.env| == |env|
  {
    match o
    case Raise(w) => EThrow(w)
    case Ok(st) => EvalElements(pr, es, arr, scope, env, st.w)
  }

  ghost predicate BeginsElements(cx: Context, es: seq<Expr>, arr: Val, fs: FState, scope: seq<Slot>, env: seq<Val>,
      c0: Conf, o: Outcome) {
    && Ready(fs) && Ran(cx, fs, c0, o, scope, env) && |fs.targets| > 0 && |scope| <= Top(fs) < |fs.vlocals|
    && WellFormedAll(es) && SafeElements(es, scope) && !LastIsCmp(fs)
    && Fits(CompElements(es, fs)) && Agree(cx, CompElements(es, fs), Frontier(fs))
    && (o.Ok? ==> Rd(o.st.regs, Top(fs)) == arr)
  }

  /** Elements are appended; nothing else changes but variables and the world. */
  ghost predicate Appended(o: Outcome, o': Outcome, res: EvalResult, n: int, nl: int) {
    match res
    case EThrow(w) => o' == Raise(w)
    case EOk(_, env, w) =>
      o.Ok? && o'.Ok? && o'.st.w == w && Locals(o'.st.regs, env) && Kept(o.st.regs, o'.st.regs, nl, n)
  }

  function AppendMeaning(pr: Prims, arr: Val, r1: EvalResult): EvalResult {
    match r1
    case EThrow(_) => r1
    case EOk(a, env, w) =>
      match pr.apply(Prim(APPENDARRAY, 0, false), [arr, Deref(a, env)], w)
      case Threw(w') => EThrow(w')
      case Done(_, w') => EOk(a, env, w')
  }

  lemma AppendEffect(cx: Context, arr: Val, r1: EvalResult, top: int, t: int, st: State)
    requires r1.EOk? && Rd(st.regs, top) == arr && Rd(st.regs, t) == Deref(r1.o, r1.env) && st.w == r1.w
      && 0 <= top < 255
    ensures match AppendMeaning(cx.prims, arr, r1)
      case EThrow(w) => Effect(cx, Ins(APPENDARRAY, top, t, AAT_STACK), st) == Raise(w)
      case EOk(_, _, w) => Effect(cx, Ins(APPENDARRAY, top, t, AAT_STACK), st) == Ok(st.(w := w))
  {
  }

  lemma SimAppend(cx: Context, arr: Val, fs1: FState, fs: FState, scope: seq<Slot>, env: seq<Val>, c0: Conf,
      o: Outcome, o1: Outcome,
    r1: EvalResult) returns (o': Outcome)
    requires Start(fs, scope) && |fs.targets| > 0 && |scope| <= Top(fs) < |fs.vlocals| && One(fs, fs1) && Fits(fs1)
    requires Ran(cx, fs1, c0, o1, scope, env) && (r1.EOk? ==> env == r1.env)
    requires Yields(o, o1, r1, Top(fs1), |fs.vlocals|, |scope|) && (o.Ok? ==> Rd(o.st.regs, Top(fs)) == arr)
    requires Agree(cx, AppendEnd(fs1, fs), Frontier(fs1))
    ensures Arrive(cx, AppendEnd(fs1, fs), c0, o')
    ensures Appended(o, o', AppendMeaning(cx.prims, arr, r1), |fs.vlocals|, |scope|)
    ensures o'.Ok? ==> Rd(o'.st.regs, Top(fs)) == arr
  {
    hide Add, Fuse, Arrive, Agree, Effect, Pop;
    PopOne(fs, fs1);
    var p, t, top := Pop(fs1), Top(fs1), Top(fs);
    TargetRange(fs, fs1, scope);
    SameCodeArrive(cx, fs1, p, c0, o1);
    var i := Ins(APPENDARRAY, top, t, AAT_STACK);
    assert Start(p, scope);
    o' := AddArrive(cx, p, i, c0, o1, |scope|, |fs.vlocals|);
    if r1.EOk? {
      OperandValue(r1.o, o1.st.regs, t, |fs.vlocals|, env);
      AppendEffect(cx, arr, r1, top, t, o1.st);
    }
  }

  lemma ElementsParts(cx: Context, es: seq<Expr>, arr: Val, fs: FState, scope: seq<Slot>, env: seq<Val>, c0: Conf,
      o: Outcome)
    requires BeginsElements(cx, es, arr, fs, scope, env, c0, o) && es != []
    ensures var fs1 := CompE(es[0], fs);
      && Begins(cx, es[0], fs, scope, env, c0, o) && One(fs, fs1) && Start(fs, scope) && Fits(fs1)
      && Agree(cx, AppendEnd(fs1, fs), Frontier(fs1))
    ensures var fs2 := AppendEnd(CompE(es[0], fs), fs);
      && Ready(fs2) && Start(fs2, scope) && |fs2.targets| > 0 && Top(fs2) == Top(fs) && fs2.vlocals == fs.vlocals
      && !LastIsCmp(fs2)
      && CompElements(es, fs) == CompElements(es[1..], fs2) && Agree(cx, CompElements(es[1..], fs2), Frontier(fs2))
      && WellFormedAll(es[1..]) && SafeElements(es[1..], scope)
  {
    hide Arrive, Eval, Effect, Fits, Agree, InScope, DestSafe, Laid, LastIsCmp, Frontier, Ready, AppendEnd, CompE, Pop,
      Grown;
    var fs1 := CompE(es[0], fs);
    var fs2 := AppendEnd(fs1, fs);
    OneReady(fs, fs2);
    ElementsGrow(es, fs1, fs2, fs);
    LayE(es[0], fs, scope);
    LaidStart(fs, fs1, scope);
    LayAppend(fs1, fs, scope);
    LaidStart(fs1, fs2, scope);
    LayElements(es[1..], fs2, scope);
    LaidTrans(fs, fs1, fs2, scope);
    AgreeSplit(cx, fs, fs2, CompElements(es, fs), scope);
    AgreeSplit(cx, fs, fs1, fs2, scope);
  }

  lemma ElementsGrow(es: seq<Expr>, fs1: FState, fs2: FState, fs: FState)
    requires Ready(fs) && |fs.targets| > 0 && One(fs, fs1) && fs2 == AppendEnd(fs1, fs) && Ready(fs2) && es != []
    ensures Fits(CompElements(es[1..], fs2)) ==> Fits(fs2) && Fits(fs1)
    ensures Same(fs, fs2)
  {
    AppendGrows(fs1, fs);
  }

  lemma SimElements(cx: Context, es: seq<Expr>, arr: Val, fs: FState, scope: seq<Slot>, env: seq<Val>, c0: Conf,
      o: Outcome)
    returns (o': Outcome)
    requires BeginsElements(cx, es, arr, fs, scope, env, c0, o)
    ensures Arrive(cx, CompElements(es, fs), c0, o')
    ensures Appended(o, o', ElementsAfter(cx.prims, es, arr, scope, env, o), |fs.vlocals|, |scope|)
    ensures o'.Ok? ==> Rd(o'.st.regs, Top(fs)) == arr
    decreases es, 0
  {
    hide Arrive, Effect, CompE, Agree, Fits, WellFormed, LastIsCmp, Ready, InScope, DestSafe, Locals, Kept, Eval,
      CompElements, Grown, Pushed, AppendEnd, Frontier, Rd;
    if es == [] {
      o' := o;
      NoElements(cx, arr, fs, scope, env, o);
    } else {
      ElementsParts(cx, es, arr, fs, scope, env, c0, o);
      var fs1 := CompE(es[0], fs);
      var o1 := SimE(cx, es[0], fs, scope, env, c0, o);
      RanAfter(cx, es[0], fs, scope, env, c0, o, o1);
      var r1 := EvalAfter(cx.prims, es[0], scope, env, o);
      var env1 := EnvAfter(r1, env);
      var o2 := SimAppend(cx, arr, fs1, fs, scope, env1, c0, o, o1, r1);
      var fs2 := AppendEnd(fs1, fs);
      o' := SimElements(cx, es[1..], arr, fs2, scope, env1, c0, o2);
      ElementsUnfold(cx.prims, es, arr, scope, env, o, o2, r1);
      AppendedTrans(o, o2, o', AppendMeaning(cx.prims, arr, r1),
        ElementsAfter(cx.prims, es[1..], arr, scope, env1, o2), |fs.vlocals|, |scope|);
    }
  }

  lemma NoElements(cx: Context, arr: Val, fs: FState, scope: seq<Slot>, env: seq<Val>, o: Outcome)
    requires Ready(fs) && |fs.targets| > 0 && (o.Ok? ==> Locals(o.st.regs, env))
    ensures CompElements([], fs) == fs
    ensures Appended(o, o, ElementsAfter(cx.prims, [], arr, scope, env, o), |fs.vlocals|, |scope|)
  {
  }

  lemma ElementsUnfold(pr: Prims, es: seq<Expr>, arr: Val, scope: seq<Slot>, env: seq<Val>, o: Outcome, o2: Outcome,
      r1: EvalResult)
    requires es != [] && r1 == EvalAfter(pr, es[0], scope, env, o) && Follows(o2, AppendMeaning(pr, arr, r1))
    ensures ElementsAfter(pr, es, arr, scope, env, o) == ElementsAfter(pr, es[1..], arr, scope, EnvAfter(r1, env), o2)
  {
  }

  lemma AppendedTrans(o: Outcome, o2: Outcome, o': Outcome, r2: EvalResult, r3: EvalResult, n: int, nl: int)
    requires Appended(o, o2, r2, n, nl) && Appended(o2, o', r3, n, nl)
    ensures Appended(o, o', r3, n, nl)
  {
  }

  function NewMeaning(pr: Prims, env: seq<Val>, o: Outcome): EvalResult {
    match o
    case Raise(w) => EThrow(w)
    case Ok(st) =>
      match pr.apply(Prim(NEWOBJ, NOT_ARRAY, false), [], st.w)
      case Threw(w) => EThrow(w)
      case Done(v, w) => EOk(Value(v), env, w)
  }

  /** The array is created whatever the element count patched into the instruction. */
  lemma SimNew(cx: Context, fs: FState, k: int, scope: seq<Slot>, env: seq<Val>, c0: Conf,
      o: Outcome) returns (o1: Outcome)
    requires Ran(cx, fs, c0, o, scope, env) && |fs.vlocals| < 255
    requires PatchedAt(cx, |fs.code|, Ins(NEWOBJ, |fs.vlocals|, 0, 0, NOT_ARRAY), k)
    requires Open(fs) ==> cx.code[Frontier(fs)] == Last(fs.code)
    ensures var fs1 := Result(fs, NEWOBJ, 0, 0, NOT_ARRAY);
      Arrive(cx, fs1, c0, o1) && Yields(o, o1, NewMeaning(cx.prims, env, o), |fs.vlocals|, |fs.vlocals|, |scope|)
  {
    var fs1 := Result(fs, NEWOBJ, 0, 0, NOT_ARRAY);
    RunPending(cx, fs, c0, o);
    if o.Raise? {
      o1 := o;
      ArriveRaised(cx, fs1, c0, o.w);
    } else {
      var c := At(|fs.code|, o.st);
      ReachStep(cx, c);
      ReachTrans(cx, c0, c, Step(cx, c), 0, 1);
      ReachWeaken(cx, c0, Step(cx, c), 1, 0);
      o1 := Effect(cx, cx.code[|fs.code|], o.st);
      if o1.Raise? {
        ArriveRaised(cx, fs1, c0, o1.w);
      } else {
        ArriveClosed(cx, fs1, c0, o1.st);
      }
    }
  }

  lemma ArrayCode(e: Expr, fs: FState)
    requires Ready(fs) && e.Array?
    ensures var fs1 := Result(fs, NEWOBJ, 0, 0, NOT_ARRAY);
      Ready(fs1) && |fs1.targets| > 0 && CompE(e, fs) == Patch(CompElements(e.es, fs1), Pos(fs1), |e.es|)
  {
    hide CompElements, Result;
    OneReady(fs, Result(fs, NEWOBJ, 0, 0, NOT_ARRAY));
  }

  lemma ArrayParts(cx: Context, e: Expr, fs: FState, scope: seq<Slot>, env: seq<Val>, c0: Conf, o: Outcome)
    requires Begins(cx, e, fs, scope, env, c0, o) && e.Array?
    ensures var fs1 := Result(fs, NEWOBJ, 0, 0, NOT_ARRAY);
      && Ready(fs1) && One(fs, fs1) && Start(fs, scope) && Start(fs1, scope) && |fs1.targets| > 0
      && Top(fs1) == |fs.vlocals| < 255
      && WellFormedAll(e.es) && SafeElements(e.es, scope) && !LastIsCmp(fs1)
      && Fits(CompElements(e.es, fs1)) && Agree(cx, CompElements(e.es, fs1), Frontier(fs1))
      && PatchedAt(cx, |fs.code|, Ins(NEWOBJ, |fs.vlocals|, 0, 0, NOT_ARRAY), |e.es|)
      && (Open(fs) ==> cx.code[Frontier(fs)] == Last(fs.code))
      && |fs1.vlocals| == |fs.vlocals| + 1
      && 0 <= Pos(fs1) < Frontier(CompElements(e.es, fs1)) <= |CompElements(e.es, fs1).code|
  {
    hide Arrive, Eval, Effect, Fits, InScope, DestSafe, CompE, CompElements, Result, Grown;
    ArrayCode(e, fs);
    var fs1 := Result(fs, NEWOBJ, 0, 0, NOT_ARRAY);
    var fs2 := CompElements(e.es, fs1);
    ArrayGrows(fs2, fs1, |e.es|, fs);
    LayNewArray(fs, scope);
    LaidStart(fs, fs1, scope);
    LayElements(e.es, fs1, scope);
    NewRoom(fs);
    PatchNew(cx, e, fs2, fs1, fs, scope);
  }

  lemma NewRoom(fs: FState)
    requires Fits(Result(fs, NEWOBJ, 0, 0, NOT_ARRAY))
    ensures |fs.vlocals| < 255
    ensures var fs1 := Result(fs, NEWOBJ, 0, 0, NOT_ARRAY);
      |fs1.code| == |fs.code| + 1 && fs1.code[..|fs.code|] == fs.code
  {
  }

  lemma PatchNew(cx: Context, e: Expr, fs2: FState, fs1: FState, fs: FState, scope: seq<Slot>)
    requires e.Array? && Laid(fs, fs1, scope) && Laid(fs1, fs2, scope) && !Open(fs1) && |fs1.code| == |fs.code| + 1
    requires fs1.code[..|fs.code|] == fs.code && Last(fs1.code) == Ins(NEWOBJ, |fs.vlocals|, 0, 0, NOT_ARRAY)
    requires Agree(cx, Patch(fs2, Pos(fs1), |e.es|), Frontier(fs))
    ensures Agree(cx, fs2, Frontier(fs1))
    ensures PatchedAt(cx, |fs.code|, Ins(NEWOBJ, |fs.vlocals|, 0, 0, NOT_ARRAY), |e.es|)
    ensures Open(fs) ==> cx.code[Frontier(fs)] == Last(fs.code)
  {
    hide InScope, DestSafe;
    var f := Patch(fs2, Pos(fs1), |e.es|);
    assert fs2.code[Pos(fs1)] == Last(fs1.code);
    assert Open(f) == Open(fs2);
  }

  lemma ArrayUnfold(pr: Prims, e: Expr, scope: seq<Slot>, env: seq<Val>, o: Outcome, o1: Outcome)
    requires e.Array? && Follows(o1, NewMeaning(pr, env, o))
    ensures EvalAfter(pr, e, scope, env, o) == match NewMeaning(pr, env, o)
      case EThrow(w) => EThrow(w)
      case EOk(a, _, _) => ElementsAfter(pr, e.es, Deref(a, env), scope, env, o1)
  {
  }

  lemma SimArrayE(cx: Context, e: Expr, fs: FState, scope: seq<Slot>, env: seq<Val>, c0: Conf,
      o: Outcome) returns (o': Outcome)
    requires Begins(cx, e, fs, scope, env, c0, o) && e.Array?
    ensures Computes(cx, e, fs, scope, env, c0, o, o')
    decreases e, 0
  {
    hide Arrive, Effect, CompE, Agree, Fits, WellFormed, LastIsCmp, InScope, DestSafe, Eval, CompElements, Grown,
      Frontier, Result, Open, Safe;
    ArrayParts(cx, e, fs, scope, env, c0, o);
    ArrayCode(e, fs);
    var fs1 := Result(fs, NEWOBJ, 0, 0, NOT_ARRAY);
    var o1 := SimNew(cx, fs, |e.es|, scope, env, c0, o);
    ArrayUnfold(cx.prims, e, scope, env, o, o1);
    var r := NewMeaning(cx.prims, env, o);
    var arr := if r.EOk? then Deref(r.o, env) else Null;
    NewHolds(r, o, o1, arr, |fs.vlocals|, env);
    LiftScope(cx, fs, c0, o, scope, env);
    var o2 := SimElements(cx, e.es, arr, fs1, scope, env, c0, o1);
    o' := o2;
    var fs2 := CompElements(e.es, fs1);
    PatchArrive(cx, fs2, Pos(fs1), |e.es|, fs1, scope, c0, o2);
    ArrayYields(cx, e, arr, scope, env, o, o1, o2, |fs.vlocals|, r);
  }

  lemma LiftScope(cx: Context, fs: FState, c0: Conf, o: Outcome, scope: seq<Slot>, env: seq<Val>)
    requires Ran(cx, fs, c0, o, scope, env)
    ensures |env| == |scope| <= |fs.vlocals| && 0 < |scope|
  {
  }

  lemma NewHolds(r: EvalResult, o: Outcome, o1: Outcome, arr: Val, n: int, env: seq<Val>)
    requires Yields(o, o1, r, n, n, |env|) && (r.EOk? ==> r.env == env && arr == Deref(r.o, env) && r.o.Value?)
    ensures o1.Ok? ==> Rd(o1.st.regs, n) == arr && Locals(o1.st.regs, env)
  {
  }

  lemma PatchArrive(cx: Context, fs2: FState, pos: int, k: int, fs1: FState, scope: seq<Slot>, c0: Conf, o: Outcome)
    requires 0 <= pos < |fs2.code| && pos < Frontier(fs2) && Arrive(cx, fs2, c0, o)
    ensures Arrive(cx, Patch(fs2, pos, k), c0, o)
  {
    hide Effect;
    var f := Patch(fs2, pos, k);
    assert Open(f) == Open(fs2) && Frontier(f) == Frontier(fs2) && (Open(fs2) ==> Last(f.code) == Last(fs2.code));
    if !(o.Raise? && Reach(cx, c0, Raised(o.w))) {
      var st :| ArriveVia(cx, fs2, c0, o, st);
      assert ArriveVia(cx, f, c0, o, st);
    }
  }

  lemma ArrayYields(cx: Context, e: Expr, arr: Val, scope: seq<Slot>, env: seq<Val>, o: Outcome, o1: Outcome,
      o2: Outcome, n: int, r: EvalResult)
    requires e.Array? && r == NewMeaning(cx.prims, env, o) && Yields(o, o1, r, n, n, |scope|) && |env| == |scope| <= n
    requires r.EOk? ==> arr == Deref(r.o, env)
    requires Appended(o1, o2, ElementsAfter(cx.prims, e.es, arr, scope, env, o1), n + 1, |scope|)
      && (o2.Ok? ==> Rd(o2.st.regs, n) == arr)
    requires EvalAfter(cx.prims, e, scope, env, o) == match r
      case EThrow(w) => EThrow(w)
      case EOk(a, _, _) => ElementsAfter(cx.prims, e.es, Deref(a, env), scope, env, o1)
    ensures Yields(o, o2, EvalAfter(cx.prims, e, scope, env, o), n, n, |scope|)
  {
    hide Eval, EvalAfter;
    ElementsValue(cx.prims, e.es, arr, scope, env, o1);
  }

  lemma {:induction false} ElementsValue(pr: Prims, es: seq<Expr>, arr: Val, scope: seq<Slot>, env: seq<Val>,
      o: Outcome)
    ensures var res := ElementsAfter(pr, es, arr, scope, env, o); res.EOk? ==> res.o == Value(arr)
    decreases es
  {
    hide Eval;
    if o.Ok? && es != [] {
      match Eval(pr, es[0], scope, env, o.st.w) {
        case EThrow(_) =>
        case EOk(a, env1, w1) =>
          match pr.apply(Prim(APPENDARRAY, 0, false), [arr, Deref(a, env1)], w1) {
            case Threw(_) =>
            case Done(_, w2) => ElementsValue(pr, es[1..], arr, scope, env1, Ok(State(map[], w2)));
          }
      }
    }
  }

  // --- calls

  datatype MethodResult = MOk(f: Operand, self: Val, env: seq<Val>, w: World) | MThrow(w: World)

  /** The function is where its operand says, and the next register holds `this`. */
  ghost predicate MethodYields(o: Outcome, o': Outcome, res: MethodResult, mc: MethodCode, n: int, nl: int)
    requires |mc.clo.targets| > 0 && |mc.self.targets| > 0
  {
    match res
    case MThrow(w) => o' == Raise(w)
    case MOk(f, self, env, w) =>
      && o.Ok? && o'.Ok? && o'.st.w == w
      && Locals(o'.st.regs, env) && Kept(o.st.regs, o'.st.regs, nl, n)
      && Holds(f, o'.st.regs, Top(mc.clo), n, nl) && Rd(o'.st.regs, Top(mc.self)) == self
  }

  function FunctionMeaning(r1: EvalResult): MethodResult {
    match r1
    case EThrow(w) => MThrow(w)
    case EOk(f, env, w) => MOk(f, Deref(This, env), env, w)
  }

  lemma SimFunction(cx: Context, clo: FState, fs: FState, scope: seq<Slot>, env: seq<Val>, c0: Conf, o: Outcome,
      o1: Outcome,
    r1: EvalResult) returns (o': Outcome)
    requires Start(fs, scope) && One(fs, clo) && Ran(cx, clo, c0, o1, scope, env) && (r1.EOk? ==> env == r1.env)
    requires Yields(o, o1, r1, Top(clo), |fs.vlocals|, |scope|)
    requires Fits(CompFunction(clo, fs).self) && Agree(cx, CompFunction(clo, fs).self, Frontier(clo))
    ensures Arrive(cx, CompFunction(clo, fs).self, c0, o')
    ensures MethodYields(o, o', FunctionMeaning(r1), CompFunction(clo, fs), |fs.vlocals|, |scope|)
  {
    hide Arrive, Agree, Add, Fuse, Effect, Pop, Result;
    var m := |clo.vlocals|;
    o' := SimResult(cx, clo, MOVE, 0, 0, 0, scope, c0, o1);
    if o1.Ok? {
      assert Effect(cx, Ins(MOVE, m, 0), o1.st) == Ok(Store(o1.st, m, Rd(o1.st.regs, 0))) by {
        MoveEffect(cx, m, 0, o1.st);
      }
      TargetRange(fs, clo, scope);
    }
  }

  lemma MoveEffect(cx: Context, dst: int, src: int, st: State)
    requires 0 <= dst < 256
    ensures Effect(cx, Ins(MOVE, dst, src), st) == Ok(Store(st, dst, Rd(st.regs, src)))
  {
  }

  function LookupMeaning(pr: Prims, res: PlaceResult): MethodResult {
    match res
    case FieldPlace(a, k, env, w) =>
      (match pr.apply(Prim(GET, 0, a == This), [Deref(a, env), Deref(k, env)], w)
       case Threw(w') => MThrow(w')
       case Done(m, w') => MOk(Value(m), Deref(a, env), env, w'))
    case PThrow(w) => MThrow(w)
    case LocalPlace(_) => MThrow(0)
  }

  lemma PrepareEffect(cx: Context, n: int, key: int, table: int, st: State, a: Operand, k: Operand, env: seq<Val>)
    requires Rd(st.regs, table) == Deref(a, env) && Rd(st.regs, key) == Deref(k, env) && (table == 0 <==> a == This)
    requires 0 <= n < 254 && 0 <= table < 255
    ensures match LookupMeaning(cx.prims, FieldPlace(a, k, env, st.w))
      case MThrow(w) => Effect(cx, Ins(PREPCALL, n, key, table, n + 1), st) == Raise(w)
      case MOk(f, self, _, w) =>
        && f.Value?
        && Effect(cx, Ins(PREPCALL, n, key, table, n + 1), st) == Ok(State(st.regs[n + 1 := self][n := f.v], w))
  {
  }

  lemma SimLookup(cx: Context, pc: PlaceCode, fs: FState, scope: seq<Slot>, env: seq<Val>, c0: Conf, o: Outcome,
      o2: Outcome,
    res: PlaceResult) returns (o': Outcome)
    requires Start(fs, scope) && PlacePushed(fs, pc) && pc.FieldCode? && Start(pc.mid, scope)
    requires PlaceYields(o, o2, res, pc, |fs.vlocals|, |scope|, env) && !res.LocalPlace?
    requires Ran(cx, pc.fs, c0, o2, scope, env) && (res.FieldPlace? ==> env == res.env)
    requires Fits(CompLookup(pc.mid, pc.fs, fs).self) && Agree(cx, CompLookup(pc.mid, pc.fs, fs).self, Frontier(pc.fs))
    ensures Arrive(cx, CompLookup(pc.mid, pc.fs, fs).self, c0, o')
    ensures MethodYields(o, o', LookupMeaning(cx.prims, res), CompLookup(pc.mid, pc.fs, fs), |fs.vlocals|, |scope|)
  {
    hide Arrive, Agree, Add, Fuse, Effect, Pop, CompLookup;
    var mid, fs2 := pc.mid, pc.fs;
    var n, table, key := |fs.vlocals|, Top(mid), Top(fs2);
    var q := LookupStart(fs2, mid, fs, scope);
    SameCodeArrive(cx, fs2, q, c0, o2);
    var i := Ins(PREPCALL, n, key, table, n + 1);
    o' := AddArrive(cx, q, i, c0, o2, |scope|, n);
    if res.FieldPlace? {
      OperandValue(res.o, o2.st.regs, table, n, env);
      OperandValue(res.k, o2.st.regs, key, |mid.vlocals|, env);
      PrepareEffect(cx, n, key, table, o2.st, res.o, res.k, env);
      LookupYields(cx, n, i, o, o2, o', res, CompLookup(mid, fs2, fs), env);
    }
  }

  lemma LookupYields(cx: Context, n: int, i: Instr, o: Outcome, o2: Outcome, o': Outcome, res: PlaceResult,
      mc: MethodCode, env: seq<Val>)
    requires res.FieldPlace? && res.env == env && 0 < |env| <= n && o.Ok? && o2.Ok? && o2.st.w == res.w
    requires Locals(o2.st.regs, env) && Kept(o.st.regs, o2.st.regs, |env|, n) && i.op == PREPCALL && i.a0 == n
      && i.a3 == n + 1
    requires |mc.clo.targets| > 0 && |mc.self.targets| > 0 && Top(mc.clo) == n && Top(mc.self) == n + 1
    requires Below(o', Effect(cx, i, o2.st), i, n)
    requires match LookupMeaning(cx.prims, res)
      case MThrow(w) => Effect(cx, i, o2.st) == Raise(w)
      case MOk(f, self, _, w) => f.Value? && Effect(cx, i, o2.st) == Ok(State(o2.st.regs[n + 1 := self][n := f.v], w))
    ensures MethodYields(o, o', LookupMeaning(cx.prims, res), mc, n, |env|)
  {
    hide Effect;
    match LookupMeaning(cx.prims, res) {
      case MThrow(_) =>
      case MOk(f, self, _, w) =>
        assert Writes(i, n) && Writes(i, n + 1);
    }
  }

  lemma LookupStart(fs2: FState, mid: FState, fs: FState, scope: seq<Slot>) returns (q: FState)
    requires Start(fs, scope) && One(fs, mid) && Start(mid, scope) && One(mid, fs2) && Start(fs2, scope)
    requires Fits(CompLookup(mid, fs2, fs).self)
    ensures q.code == fs2.code && q.opt == fs2.opt && Start(q, scope) && Frontier(q) == Frontier(fs2)
    ensures var mc := CompLookup(mid, fs2, fs); var n := |fs.vlocals|;
      && mc.self == Add(q, Ins(PREPCALL, n, Top(fs2), Top(mid), n + 1)) && Top(mc.clo) == n && Top(mc.self) == n + 1
      && n < 254
      && 0 <= Top(mid) < 255 && |mc.clo.targets| > 0 && |mc.self.targets| > 0
      && Dead(Ins(PREPCALL, n, Top(fs2), Top(mid), n + 1), |scope|, n)
  {
    hide Add, Fuse, Pop, Dead;
    PopTwo(fs, mid, fs2);
    LookupRoom(mid, fs2, fs);
    LookupDead(fs2, mid, fs, scope);
    q := PushTemp(PushTemp(Pop(Pop(fs2))));
  }

  lemma LookupDead(fs2: FState, mid: FState, fs: FState, scope: seq<Slot>)
    requires Start(fs, scope) && One(fs, mid) && Start(mid, scope) && One(mid, fs2) && Start(fs2, scope)
    requires Fits(fs2) && Fits(mid) && |fs.vlocals| < 254
    ensures 0 <= Top(mid) < 255
      && Dead(Ins(PREPCALL, |fs.vlocals|, Top(fs2), Top(mid), |fs.vlocals| + 1), |scope|, |fs.vlocals|)
  {
    TargetRange(fs, mid, scope);
    TargetRange(mid, fs2, scope);
  }

  lemma LookupRoom(mid: FState, fs2: FState, fs: FState)
    requires One(fs, mid) && One(mid, fs2) && Fits(CompLookup(mid, fs2, fs).self)
    ensures |fs.vlocals| < 254 && Fits(fs2) && Fits(mid)
  {
    hide Fuse;
    PopTwo(fs, mid, fs2);
  }

  // --- arguments

  function ArgsAfter(pr: Prims, args: seq<Expr>, scope: seq<Slot>, env: seq<Val>, o: Outcome): (res: ArgsResult)
    ensures res.AOk? ==> |res.env| == |env| && |res.vs| == |args|
  {
    match o
    case Raise(w) => AThrow(w)
    case Ok(st) => EvalArgs(pr, args, scope, env, st.w)
  }

  ghost predicate BeginsArgs(cx: Context, args: seq<Expr>, fs: FState, scope: seq<Slot>, env: seq<Val>, c0: Conf,
      o: Outcome) {
    && Ready(fs) && Ran(cx, fs, c0, o, scope, env)
    && WellFormedAll(args) && SafeArgs(args, LastIsCmp(fs), scope)
    && Fits(CompArgs(args, fs)) && Agree(cx, CompArgs(args, fs), Frontier(fs))
  }

  /** The arguments are in consecutive registers from `n` on. */
  ghost predicate ArgsYield(o: Outcome, o': Outcome, res: ArgsResult, n: int, nl: int) {
    match res
    case AThrow(w) => o' == Raise(w)
    case AOk(vs, env, w) =>
      && o.Ok? && o'.Ok? && o'.st.w == w
      && Locals(o'.st.regs, env) && Kept(o.st.regs, o'.st.regs, nl, n)
      && forall k :: 0 <= k < |vs| ==> Rd(o'.st.regs, n + k) == vs[k]
  }

  function ValueOf(r: EvalResult): EvalResult {
    match r
    case EThrow(_) => r
    case EOk(a, env, w) => EOk(Value(Deref(a, env)), env, w)
  }

  lemma SimMoveIfLocal(cx: Context, fs1: FState, fs: FState, scope: seq<Slot>, env: seq<Val>, c0: Conf, o: Outcome,
      o1: Outcome,
    r1: EvalResult) returns (o': Outcome)
    requires Start(fs, scope) && One(fs, fs1) && Ran(cx, fs1, c0, o1, scope, env) && (r1.EOk? ==> env == r1.env)
    requires Yields(o, o1, r1, Top(fs1), |fs.vlocals|, |scope|)
    requires Fits(MoveIfLocal(fs1, fs)) && Fits(fs1) && Agree(cx, MoveIfLocal(fs1, fs), Frontier(fs1))
    ensures Arrive(cx, MoveIfLocal(fs1, fs), c0, o')
    ensures Yields(o, o', ValueOf(r1), |fs.vlocals|, |fs.vlocals|, |scope|)
  {
    hide Arrive, Agree, Add, Fuse, Effect, Pop, Result, MoveIfLocal;
    var n, t := |fs.vlocals|, Top(fs1);
    TargetRange(fs, fs1, scope);
    MoveIfLocalCode(fs1, fs, scope);
    if t < |scope| {
      LayPop(fs, fs1, scope);
      PopOne(fs, fs1);
      SameCodeArrive(cx, fs1, Pop(fs1), c0, o1);
      o' := SimResult(cx, Pop(fs1), MOVE, t, 0, 0, scope, c0, o1);
      if o1.Ok? {
        MoveEffect(cx, n, t, o1.st);
        OperandValue(r1.o, o1.st.regs, t, n, env);
        assert Writes(Ins(MOVE, n, t), n);
      }
    } else {
      o' := o1;
    }
  }

  lemma MoveIfLocalCode(fs1: FState, fs: FState, scope: seq<Slot>)
    requires Start(fs, scope) && One(fs, fs1) && Start(fs1, scope)
    ensures 0 <= Top(fs1) < |fs1.vlocals|
    ensures MoveIfLocal(fs1, fs) == if Top(fs1) < |scope| then Result(Pop(fs1), MOVE, Top(fs1)) else fs1
    ensures Frontier(Pop(fs1)) == Frontier(fs1)
  {
    hide Result;
    PopOne(fs, fs1);
  }

  lemma ArgsParts(cx: Context, args: seq<Expr>, fs: FState, scope: seq<Slot>, env: seq<Val>, c0: Conf, o: Outcome)
    requires BeginsArgs(cx, args, fs, scope, env, c0, o) && args != []
    ensures var fs1 := CompE(args[0], fs);
      && Begins(cx, args[0], fs, scope, env, c0, o) && One(fs, fs1) && Start(fs, scope) && Fits(fs1)
      && Fits(MoveIfLocal(fs1, fs)) && Agree(cx, MoveIfLocal(fs1, fs), Frontier(fs1))
    ensures var fs2 := MoveIfLocal(CompE(args[0], fs), fs);
      && Ready(fs2) && Start(fs2, scope) && |fs2.vlocals| == |fs.vlocals| + 1 && Top(fs2) == |fs.vlocals|
      && CompArgs(args, fs) == CompArgs(args[1..], fs2) && Agree(cx, CompArgs(args[1..], fs2), Frontier(fs2))
      && WellFormedAll(args[1..]) && SafeArgs(args[1..], LastIsCmp(fs2), scope)
  {
    hide Arrive, Eval, Effect, Fits, Agree, InScope, DestSafe, Laid, LastIsCmp, Frontier, Ready, MoveIfLocal, CompE,
      Pop, Grown, EndsCmp;
    var fs1 := CompE(args[0], fs);
    var fs2 := MoveIfLocal(fs1, fs);
    OneReady(fs, fs2);
    ArgsGrow(args, fs1, fs2, fs);
    LayE(args[0], fs, scope);
    LaidStart(fs, fs1, scope);
    LayMoveIfLocal(fs1, fs, scope);
    ArgPending(args[0], fs, scope);
    LaidStart(fs1, fs2, scope);
    LayArgs(args[1..], fs2, scope);
    LaidTrans(fs, fs1, fs2, scope);
    AgreeSplit(cx, fs, fs2, CompArgs(args, fs), scope);
    AgreeSplit(cx, fs, fs1, fs2, scope);
  }

  lemma ArgPending(e: Expr, fs: FState, scope: seq<Slot>)
    requires Start(fs, scope) && Ready(fs) && WellFormed(e) && Fits(CompE(e, fs))
    ensures LastIsCmp(CompE(e, fs)) && Top(CompE(e, fs)) >= |scope| <==> EndsCmp(e, false, scope)
  {
    hide CompE, WellFormed, Fits, DestSafe;
    LayE(e, fs, scope);
    if BareLocal(e, scope) {
      LocalTop(e, fs, scope);
    } else if e.Bin? && e.op == CMP {
      TestsCmp(e, fs, scope);
    }
  }

  lemma LocalTop(e: Expr, fs: FState, scope: seq<Slot>)
    requires Start(fs, scope) && Ready(fs) && BareLocal(e, scope)
    ensures Top(CompE(e, fs)) < |scope|
  {
    LookupScope(fs, scope, e.p.name);
  }

  lemma ArgsGrow(args: seq<Expr>, fs1: FState, fs2: FState, fs: FState)
    requires Ready(fs) && One(fs, fs1) && fs2 == MoveIfLocal(fs1, fs) && Ready(fs2) && args != []
    ensures Fits(CompArgs(args[1..], fs2)) ==> Fits(fs2) && Fits(fs1)
    ensures One(fs, fs2) && Top(fs2) == |fs.vlocals| && |fs2.vlocals| == |fs.vlocals| + 1
  {
    MoveGrows(fs1, fs);
  }

  lemma SimArgs(cx: Context, args: seq<Expr>, fs: FState, scope: seq<Slot>, env: seq<Val>, c0: Conf,
      o: Outcome) returns (o': Outcome)
    requires BeginsArgs(cx, args, fs, scope, env, c0, o)
    ensures Arrive(cx, CompArgs(args, fs), c0, o')
    ensures ArgsYield(o, o', ArgsAfter(cx.prims, args, scope, env, o), |fs.vlocals|, |scope|)
    decreases args, 0
  {
    hide Arrive, Effect, CompE, Agree, Fits, WellFormed, LastIsCmp, Ready, InScope, DestSafe, Eval, CompArgs, Grown,
      Pushed, MoveIfLocal, Frontier, Safe, Locals, Kept, Rd;
    if args == [] {
      o' := o;
      NoArguments(cx, fs, scope, env, o);
    } else {
      ArgsParts(cx, args, fs, scope, env, c0, o);
      LiftScope(cx, fs, c0, o, scope, env);
      var fs1 := CompE(args[0], fs);
      var o1 := SimE(cx, args[0], fs, scope, env, c0, o);
      RanAfter(cx, args[0], fs, scope, env, c0, o, o1);
      var r1 := EvalAfter(cx.prims, args[0], scope, env, o);
      var env1 := EnvAfter(r1, env);
      var o2 := SimMoveIfLocal(cx, fs1, fs, scope, env1, c0, o, o1, r1);
      var fs2 := MoveIfLocal(fs1, fs);
      assert Ran(cx, fs2, c0, o2, scope, env1);
      o' := SimArgs(cx, args[1..], fs2, scope, env1, c0, o2);
      ArgsUnfold(cx.prims, args, scope, env, o, o2, r1);
      MoreArguments(o, o2, o', r1, ArgsAfter(cx.prims, args[1..], scope, env1, o2),
        ArgsAfter(cx.prims, args, scope, env, o), |fs.vlocals|, |scope|);
    }
  }

  lemma NoArguments(cx: Context, fs: FState, scope: seq<Slot>, env: seq<Val>, o: Outcome)
    requires Ready(fs) && (o.Ok? ==> Locals(o.st.regs, env))
    ensures CompArgs([], fs) == fs
    ensures ArgsYield(o, o, ArgsAfter(cx.prims, [], scope, env, o), |fs.vlocals|, |scope|)
  {
  }

  lemma ArgsUnfold(pr: Prims, args: seq<Expr>, scope: seq<Slot>, env: seq<Val>, o: Outcome, o2: Outcome, r1: EvalResult)
    requires args != [] && r1 == EvalAfter(pr, args[0], scope, env, o) && Follows(o2, r1)
    ensures ArgsAfter(pr, args, scope, env, o) == match (r1, ArgsAfter(pr, args[1..], scope, EnvAfter(r1, env), o2))
      case (EOk(a, env1, _), AOk(vs, env2, w2)) => AOk([Deref(a, env1)] + vs, env2, w2)
      case (EThrow(w1), _) => AThrow(w1)
      case (_, AThrow(w2)) => AThrow(w2)
  {
  }

  lemma MoreArguments(o: Outcome, o2: Outcome, o': Outcome, r1: EvalResult, rest: ArgsResult, res: ArgsResult, n: int,
      nl: int)
    requires Yields(o, o2, ValueOf(r1), n, n, nl) && ArgsYield(o2, o', rest, n + 1, nl) && 0 < nl <= n
    requires r1.EThrow? ==> rest == AThrow(r1.w)
    requires res == match (r1, rest)
      case (EOk(a, env1, _), AOk(vs, env2, w2)) => AOk([Deref(a, env1)] + vs, env2, w2)
      case (EThrow(w1), _) => AThrow(w1)
      case (_, AThrow(w2)) => AThrow(w2)
    ensures ArgsYield(o, o', res, n, nl)
  {
    if res.AOk? {
      forall k | 0 <= k < |res.vs| ensures Rd(o'.st.regs, n + k) == res.vs[k] {
        if k > 0 {
          assert Rd(o'.st.regs, n + 1 + (k - 1)) == rest.vs[k - 1];
        }
      }
    }
  }

  // --- the call itself

  function CallMeaning(pr: Prims, m: MethodResult, args: ArgsResult): EvalResult {
    match (m, args)
    case (MOk(f, self, _, _), AOk(vs, env, w)) =>
      (match pr.call(Deref(f, env), [self] + vs, w)
       case CallThrew(w') => EThrow(w')
       case Returns(v, w', _) => EOk(Value(v), env, w'))
    case (MThrow(w), _) => EThrow(w)
    case (_, AThrow(w)) => EThrow(w)
  }

  lemma CallEffect(cx: Context, n: int, clo: int, base: int, k: nat, st: State, f: Operand, self: Val, vs: seq<Val>,
      env: seq<Val>)
    requires 0 <= n < 255 && n <= base < 255 && k == |vs| < 255
    requires Rd(st.regs, clo) == Deref(f, env) && Rd(st.regs, base) == self
    requires forall j :: 0 <= j < k ==> Rd(st.regs, base + 1 + j) == vs[j]
    ensures forall env0, w0 :: Produces(Effect(cx, Ins(CALL, n, clo, base, k + 1), st),
      CallMeaning(cx.prims, MOk(f, self, env0, w0), AOk(vs, env, st.w)), st, n, env)
  {
    var win := Window(st.regs, base, k + 1);
    forall j | 0 <= j < k + 1 ensures win[j] == ([self] + vs)[j] {
      if j > 0 {
        assert Rd(st.regs, base + 1 + (j - 1)) == vs[j - 1];
      }
    }
    assert win == [self] + vs;
  }

  /** Everything of a call after its arguments. */
  lemma SimCallEnd(cx: Context, p: FState, k: nat, mc: MethodCode, fs: FState, scope: seq<Slot>, env: seq<Val>,
      c0: Conf,
    o: Outcome, o1: Outcome, o2: Outcome, m: MethodResult, args: ArgsResult) returns (o': Outcome)
    requires Start(fs, scope) && MethodPushed(fs, mc) && Same(mc.self, p) && Start(p, scope) && k < 255
      && |env| == |scope|
    requires MethodYields(o, o1, m, mc, |fs.vlocals|, |scope|)
    requires ArgsYield(o1, o2, args, |mc.self.vlocals|, |scope|) && (m.MThrow? ==> args == AThrow(m.w))
    requires args.AOk? ==> |args.vs| == k && args.env == env
    requires Arrive(cx, p, c0, o2)
    requires Fits(CallEnd(p, k, mc, fs)) && Agree(cx, CallEnd(p, k, mc, fs), Frontier(p))
    ensures Arrive(cx, CallEnd(p, k, mc, fs), c0, o')
    ensures Yields(o, o', CallMeaning(cx.prims, m, args), |fs.vlocals|, |fs.vlocals|, |scope|)
  {
    hide Arrive, Agree, Add, Fuse, Effect, Pop, CallEnd, CallMeaning, Result, Rd, DestSafe, MethodYields, Grown, Kept,
      Locals, LastIsCmp;
    var n, clo, base := |fs.vlocals|, Top(mc.clo), Top(mc.self);
    var q := CallStart(p, k, mc, fs, scope);
    SameCodeArrive(cx, p, q, c0, o2);
    o' := SimResult(cx, q, CALL, clo, base, k + 1, scope, c0, o2);
    CallThrows(cx.prims, m, args);
    if args.AOk? {
      CallFinished(cx, k, mc, fs, env, o, o1, o2, o', m, args);
    }
  }

  lemma CallFinished(cx: Context, k: nat, mc: MethodCode, fs: FState, env: seq<Val>, o: Outcome, o1: Outcome,
      o2: Outcome, o': Outcome,
    m: MethodResult, args: ArgsResult)
    requires MethodPushed(fs, mc) && 0 < |env| <= |fs.vlocals| < 255 && m.MOk? && args.AOk? && args.env == env
      && |args.vs| == k < 255
    requires MethodYields(o, o1, m, mc, |fs.vlocals|, |env|) && ArgsYield(o1, o2, args, |mc.self.vlocals|, |env|)
      && 0 <= Top(mc.self) < 255
    requires o2.Ok? && var i := Ins(CALL, |fs.vlocals|, Top(mc.clo), Top(mc.self), k + 1);
      Below(o', Effect(cx, i, o2.st), i, |fs.vlocals|)
    ensures Yields(o, o', CallMeaning(cx.prims, m, args), |fs.vlocals|, |fs.vlocals|, |env|)
  {
    hide Effect, CallMeaning, Rd, MethodYields, ArgsYield, Grown, Produces, Yields, Below, Kept, Locals;
    var n, clo, base := |fs.vlocals|, Top(mc.clo), Top(mc.self);
    CallThrows(cx.prims, m, args);
    CallValues(o, o1, o2, m, args, mc, fs, env);
    CallEffect(cx, n, clo, base, k, o2.st, m.f, m.self, args.vs, env);
    var i := Ins(CALL, n, clo, base, k + 1);
    Conclude(o, o2, o', Effect(cx, i, o2.st), i, CallMeaning(cx.prims, m, args), n, env);
  }

  lemma CallThrows(pr: Prims, m: MethodResult, args: ArgsResult)
    requires m.MThrow? ==> args == AThrow(m.w)
    ensures args.AThrow? ==> CallMeaning(pr, m, args) == EThrow(args.w)
    ensures args.AOk? ==>
      m.MOk? && CallMeaning(pr, m, args)
      == CallMeaning(pr, MOk(m.f, m.self, m.env, m.w), AOk(args.vs, args.env, args.w))
  {
  }

  lemma CallValues(o: Outcome, o1: Outcome, o2: Outcome, m: MethodResult, args: ArgsResult, mc: MethodCode, fs: FState,
      env: seq<Val>)
    requires MethodPushed(fs, mc) && 0 < |env| <= |fs.vlocals| && m.MOk? && args.AOk? && args.env == env
    requires MethodYields(o, o1, m, mc, |fs.vlocals|, |env|) && ArgsYield(o1, o2, args, |mc.self.vlocals|, |env|)
    ensures o.Ok? && o2.Ok? && o2.st.w == args.w && Locals(o2.st.regs, env)
      && Kept(o.st.regs, o2.st.regs, |env|, |fs.vlocals|)
    ensures Rd(o2.st.regs, Top(mc.clo)) == Deref(m.f, env) && Rd(o2.st.regs, Top(mc.self)) == m.self
    ensures forall j :: 0 <= j < |args.vs| ==> Rd(o2.st.regs, Top(mc.self) + 1 + j) == args.vs[j]
    ensures |fs.vlocals| <= Top(mc.self)
  {
    assert |mc.self.vlocals| == Top(mc.self) + 1;
    HoldsLater(m.f, o1.st.regs, o2.st.regs, Top(mc.clo), |fs.vlocals|, |env|, |mc.self.vlocals|);
  }

  lemma CallStart(p: FState, k: nat, mc: MethodCode, fs: FState, scope: seq<Slot>) returns (q: FState)
    requires Start(fs, scope) && MethodPushed(fs, mc) && Same(mc.self, p) && Start(p, scope)
      && Fits(CallEnd(p, k, mc, fs))
    ensures q.code == p.code && q.opt == p.opt && Start(q, scope) && q.vlocals == fs.vlocals
      && Frontier(q) == Frontier(p)
    ensures CallEnd(p, k, mc, fs) == Result(q, CALL, Top(mc.clo), Top(mc.self), k + 1)
    ensures Dead(Ins(CALL, |fs.vlocals|, Top(mc.clo), Top(mc.self), k + 1), |scope|, |fs.vlocals|)
    ensures 0 <= Top(mc.self) < 255
  {
    hide Add, Fuse, Result, Pop;
    PopTwo(fs, mc.clo, p);
    CallRoom(p, k, mc, fs);
    q := Pop(Pop(p));
  }

  lemma CallRoom(p: FState, k: nat, mc: MethodCode, fs: FState)
    requires MethodPushed(fs, mc) && Same(mc.self, p)
    ensures Fits(CallEnd(p, k, mc, fs)) ==> Fits(p)
  {
  }

  /** A call: method, arguments, call. */
  ghost predicate CallParts(cx: Context, args: seq<Expr>, mc: MethodCode, fs': FState, fs: FState, scope: seq<Slot>)
    requires Ready(fs)
  {
    && MethodPushed(fs, mc) && Ready(mc.self) && Start(fs, scope) && Start(mc.self, scope) && !LastIsCmp(mc.self)
    && WellFormedAll(args) && SafeArgs(args, false, scope) && |args| < 255
    && Fits(CompArgs(args, mc.self)) && Agree(cx, CompArgs(args, mc.self), Frontier(mc.self))
    && fs' == CallEnd(PopMany(CompArgs(args, mc.self), mc.self, |args|), |args|, mc, fs)
    && Start(PopMany(CompArgs(args, mc.self), mc.self, |args|), scope)
    && Fits(fs') && Agree(cx, fs', Frontier(CompArgs(args, mc.self)))
  }

  lemma CallPartsHold(cx: Context, args: seq<Expr>, mc: MethodCode, fs: FState, scope: seq<Slot>)
    requires Ready(fs) && MethodPushed(fs, mc) && Ready(mc.self) && Start(fs, scope) && Start(mc.self, scope)
      && !LastIsCmp(mc.self)
    requires WellFormedAll(args) && SafeArgs(args, false, scope) && |args| < 255
    requires Fits(CompCall(args, mc, fs)) && Agree(cx, CompCall(args, mc, fs), Frontier(mc.self))
    ensures CallParts(cx, args, mc, CompCall(args, mc, fs), fs, scope)
  {
    hide CallEnd, DestSafe, Extends, Fits, InScope, Pushed, Grown, PushedMany, PopMany, Frontier, Agree, CompArgs,
      SafeArgs, WellFormedAll;
    var all := CompArgs(args, mc.self);
    CallGrows(args, mc, fs);
    LayArgs(args, mc.self, scope);
    var p := PopMany(all, mc.self, |args|);
    LayPopMany(all, mc.self, |args|, scope);
    LaidStart(all, p, scope);
    LayCallEnd(p, |args|, mc, fs, scope);
    LaidTrans(all, p, CompCall(args, mc, fs), scope);
    AgreeSplit(cx, mc.self, all, CompCall(args, mc, fs), scope);
  }

  lemma SimCallRest(cx: Context, e: Expr, args: seq<Expr>, mc: MethodCode, fs: FState, scope: seq<Slot>, env: seq<Val>,
      c0: Conf,
    o: Outcome, o1: Outcome, m: MethodResult) returns (o': Outcome)
    requires Ready(fs) && CallParts(cx, args, mc, CompE(e, fs), fs, scope) && |env| == |scope|
    requires Arrive(cx, mc.self, c0, o1) && MethodYields(o, o1, m, mc, |fs.vlocals|, |scope|)
      && (m.MOk? ==> m.env == env)
    ensures Arrive(cx, CompE(e, fs), c0, o')
    ensures Yields(o, o', CallMeaning(cx.prims, m, ArgsAfter(cx.prims, args, scope, env, o1)), |fs.vlocals|,
      |fs.vlocals|, |scope|)
    ensures Top(CompE(e, fs)) == |fs.vlocals|
    decreases args, 1
  {
    hide Arrive, Agree, CompE, Effect, CallEnd, PopMany, Frontier, InScope, DestSafe, CompArgs, Fits, EvalAfter,
      CallMeaning, Kept, SafeArgs, WellFormedAll;
    assert BeginsArgs(cx, args, mc.self, scope, env, c0, o1);
    var o2 := SimArgs(cx, args, mc.self, scope, env, c0, o1);
    var all := CompArgs(args, mc.self);
    var p := PopMany(all, mc.self, |args|);
    PopManyCode(all, mc.self, |args|);
    SameCodeArrive(cx, all, p, c0, o2);
    var res := ArgsAfter(cx.prims, args, scope, env, o1);
    var env2 := if res.AOk? then res.env else env;
    o' := SimCallEnd(cx, p, |args|, mc, fs, scope, env2, c0, o, o1, o2, m, res);
  }

  lemma PopManyCode(all: FState, self: FState, k: nat)
    requires Grown(self, all) && PushedMany(self, all, k)
    ensures var p := PopMany(all, self, k); p.code == all.code && p.opt == all.opt && Frontier(p) == Frontier(all)
  {
  }

  lemma CallCode(e: Expr, fs: FState)
    requires Ready(fs) && (e.CallValue? || e.Invoke?)
    ensures e.CallValue? ==> var mc := CompFunction(CompE(e.f, fs), fs);
      Ready(mc.self) && CompE(e, fs) == CompCall(e.args, mc, fs)
    ensures e.Invoke? ==> var mc := CompMethod(CompPlace(e.p, fs), fs);
      Ready(mc.self) && CompE(e, fs) == CompCall(e.args, mc, fs)
  {
    hide Circuit, CircuitEnd, One, Same, Ready, TestPushed, Pop, Top, CompConst, CompPlace, LoadEnd, UnaryEnd, BinEnd,
      CondTest,
      CondElse, CondEnd, AssignEnd, OpAssignEnd, IncDecEnd, Result, ArrayEnd, CompElements, CompMethod, CompCall,
        CompFunction, PlacePushed, MethodPushed;
    if e.CallValue? {
      MethodReady(CompFunction(CompE(e.f, fs), fs), fs);
    } else {
      MethodReady(CompMethod(CompPlace(e.p, fs), fs), fs);
    }
  }

  lemma CallValueParts(cx: Context, e: Expr, fs: FState, scope: seq<Slot>, env: seq<Val>, c0: Conf, o: Outcome)
    requires Begins(cx, e, fs, scope, env, c0, o) && e.CallValue?
    ensures Begins(cx, e.f, fs, scope, env, c0, o)
    ensures var fs1 := CompE(e.f, fs); var mc := CompFunction(fs1, fs);
      && CallParts(cx, e.args, mc, CompE(e, fs), fs, scope) && One(fs, fs1) && Start(fs, scope)
      && Fits(mc.self) && Agree(cx, mc.self, Frontier(fs1))
  {
    hide Arrive, Eval, Effect, Fits, Agree, InScope, DestSafe, Laid, LastIsCmp, Frontier, CompE, CompCall,
      CompFunction, EndsCmp, Grown, Pushed, CallParts;
    CallCode(e, fs);
    var fs1 := CompE(e.f, fs);
    var mc := CompFunction(fs1, fs);
    CallGrows(e.args, mc, fs);
    FunctionGrows(fs1, fs);
    LayE(e.f, fs, scope);
    LaidStart(fs, fs1, scope);
    LayFunction(fs1, fs, scope);
    LaidStart(fs1, mc.self, scope);
    LayCall(e.args, mc, fs, scope);
    LaidTrans(fs, fs1, mc.self, scope);
    AgreeSplit(cx, fs, mc.self, CompE(e, fs), scope);
    AgreeSplit(cx, fs, fs1, mc.self, scope);
    CallPartsHold(cx, e.args, mc, fs, scope);
  }

  lemma FunctionGrows(clo: FState, fs: FState)
    requires One(fs, clo)
    ensures Fits(CompFunction(clo, fs).self) ==> Fits(clo)
  {
  }

  lemma CallUnfold(pr: Prims, e: Expr, scope: seq<Slot>, env: seq<Val>, o: Outcome, o1: Outcome, m: MethodResult)
    requires e.CallValue? && m == FunctionMeaning(EvalAfter(pr, e.f, scope, env, o))
    requires match m
      case MThrow(w) => o1 == Raise(w)
      case MOk(_, _, _, w) => o1.Ok? && o1.st.w == w
    ensures EvalAfter(pr, e, scope, env, o)
      == CallMeaning(pr, m, ArgsAfter(pr, e.args, scope, EnvAfter(EvalAfter(pr, e.f, scope, env, o), env), o1))
  {
    hide EvalCall, EvalArgs, CallMeaning, ArgsAfter;
    var r1 := EvalAfter(pr, e.f, scope, env, o);
    if r1.EOk? {
      EvalCallIs(pr, r1.o, Deref(This, r1.env), e.args, scope, r1.env, r1.w, o1, r1.env, r1.w);
    } else {
      RaisedArgs(pr, e.args, scope, env, o1);
    }
  }

  lemma EvalCallIs(pr: Prims, f: Operand, self: Val, args: seq<Expr>, scope: seq<Slot>, env: seq<Val>, w: World,
      o1: Outcome,
    env0: seq<Val>, w0: World)
    requires o1.Ok? && o1.st.w == w
    ensures EvalCall(pr, f, self, args, scope, env, w)
      == CallMeaning(pr, MOk(f, self, env0, w0), ArgsAfter(pr, args, scope, env, o1))
  {
    hide EvalArgs;
  }

  lemma RaisedArgs(pr: Prims, args: seq<Expr>, scope: seq<Slot>, env: seq<Val>, o1: Outcome)
    requires o1.Raise?
    ensures ArgsAfter(pr, args, scope, env, o1) == AThrow(o1.w)
    ensures forall m: MethodResult :: m == MThrow(o1.w) ==> CallMeaning(pr, m, AThrow(o1.w)) == EThrow(o1.w)
  {
  }

  lemma SimCallE(cx: Context, e: Expr, fs: FState, scope: seq<Slot>, env: seq<Val>, c0: Conf,
      o: Outcome) returns (o': Outcome)
    requires Begins(cx, e, fs, scope, env, c0, o) && e.CallValue?
    ensures Computes(cx, e, fs, scope, env, c0, o, o')
    decreases e, 0
  {
    hide Arrive, Effect, CompE, Agree, Fits, WellFormed, LastIsCmp, InScope, DestSafe, Eval, Grown, Frontier, Safe,
      CompFunction, CallMeaning, EvalAfter, Locals, Kept, Pushed, CallEnd, PopMany, CompArgs;
    CallValueParts(cx, e, fs, scope, env, c0, o);
    var fs1 := CompE(e.f, fs);
    var mc := CompFunction(fs1, fs);
    var o1 := SimE(cx, e.f, fs, scope, env, c0, o);
    RanAfter(cx, e.f, fs, scope, env, c0, o, o1);
    var r1 := EvalAfter(cx.prims, e.f, scope, env, o);
    var env1 := EnvAfter(r1, env);
    var o2 := SimFunction(cx, fs1, fs, scope, env1, c0, o, o1, r1);
    CallUnfold(cx.prims, e, scope, env, o, o2, FunctionMeaning(r1));
    o' := SimCallRest(cx, e, e.args, mc, fs, scope, env1, c0, o, o2, FunctionMeaning(r1));
  }

  lemma InvokeParts(cx: Context, e: Expr, fs: FState, scope: seq<Slot>, env: seq<Val>, c0: Conf, o: Outcome)
    requires Begins(cx, e, fs, scope, env, c0, o) && e.Invoke?
    ensures BeginsPlace(cx, e.p, fs, scope, env, c0, o)
    ensures var pc := CompPlace(e.p, fs); var mc := CompMethod(pc, fs);
      && CallParts(cx, e.args, mc, CompE(e, fs), fs, scope) && Start(fs, scope) && Fits(mc.self)
      && Agree(cx, mc.self, Frontier(pc.fs))
  {
    hide Arrive, Eval, Effect, Fits, Agree, InScope, DestSafe, Laid, LastIsCmp, Frontier, CompE, CompCall, CompMethod,
      EndsCmp, Grown, Pushed, CallParts, CompPlace;
    CallCode(e, fs);
    var pc := CompPlace(e.p, fs);
    var mc := CompMethod(pc, fs);
    CallGrows(e.args, mc, fs);
    MethodGrows(pc, fs);
    LayPlace(e.p, fs, scope);
    LaidStart(fs, pc.fs, scope);
    LayMethod(pc, fs, scope);
    LaidStart(pc.fs, mc.self, scope);
    LayCall(e.args, mc, fs, scope);
    LaidTrans(fs, pc.fs, mc.self, scope);
    AgreeSplit(cx, fs, mc.self, CompE(e, fs), scope);
    AgreeSplit(cx, fs, pc.fs, mc.self, scope);
    CallPartsHold(cx, e.args, mc, fs, scope);
  }

  function InvokeMeaning(pr: Prims, res: PlaceResult, env: seq<Val>, o: Outcome): MethodResult {
    match res
    case LocalPlace(r) => if o.Ok? then MOk(InLocal(r), Deref(This, env), env, o.st.w) else MThrow(o.w)
    case _ => LookupMeaning(pr, res)
  }

  lemma InvokeUnfold(pr: Prims, e: Expr, scope: seq<Slot>, env: seq<Val>, o: Outcome, o1: Outcome, m: MethodResult)
    requires e.Invoke? && m == InvokeMeaning(pr, PlaceAfter(pr, e.p, scope, env, o), env, o)
    requires match m
      case MThrow(w) => o1 == Raise(w)
      case MOk(_, _, _, w) => o1.Ok? && o1.st.w == w
    ensures EvalAfter(pr, e, scope, env, o)
      == CallMeaning(pr, m, ArgsAfter(pr, e.args, scope, PlaceEnv(PlaceAfter(pr, e.p, scope, env, o), env), o1))
  {
    hide EvalCall, EvalArgs, CallMeaning, ArgsAfter;
    var res := PlaceAfter(pr, e.p, scope, env, o);
    if m.MOk? {
      EvalCallIs(pr, m.f, m.self, e.args, scope, m.env, m.w, o1, m.env, m.w);
    } else {
      RaisedArgs(pr, e.args, scope, PlaceEnv(res, env), o1);
    }
  }

  lemma SimInvokeE(cx: Context, e: Expr, fs: FState, scope: seq<Slot>, env: seq<Val>, c0: Conf,
      o: Outcome) returns (o': Outcome)
    requires Begins(cx, e, fs, scope, env, c0, o) && e.Invoke?
    ensures Computes(cx, e, fs, scope, env, c0, o, o')
    decreases e, 0
  {
    hide Arrive, Effect, CompE, Agree, Fits, WellFormed, LastIsCmp, InScope, DestSafe, Eval, EvalPlace, Grown,
      Frontier, Safe, CompMethod, CallMeaning, EvalAfter, CallEnd, PopMany, CompArgs, CompPlace, PlaceYields,
      PlaceAfter, Yields;
    InvokeParts(cx, e, fs, scope, env, c0, o);
    var pc := CompPlace(e.p, fs);
    var mc := CompMethod(pc, fs);
    var o1 := SimPlace(cx, e.p, fs, scope, env, c0, o);
    RanPlace(cx, e.p, fs, scope, env, c0, o, o1);
    var res := PlaceAfter(cx.prims, e.p, scope, env, o);
    var env1 := PlaceEnv(res, env);
    var m := InvokeMeaning(cx.prims, res, env, o);
    var o2 := SimMethod(cx, e, fs, scope, env, c0, o, o1);
    InvokeUnfold(cx.prims, e, scope, env, o, o2, m);
    o' := SimCallRest(cx, e, e.args, mc, fs, scope, env1, c0, o, o2, m);
  }

  lemma SimMethod(cx: Context, e: Expr, fs: FState, scope: seq<Slot>, env: seq<Val>, c0: Conf, o: Outcome,
      o1: Outcome) returns (o2: Outcome)
    requires Begins(cx, e, fs, scope, env, c0, o) && e.Invoke?
    requires BeginsPlace(cx, e.p, fs, scope, env, c0, o) && ComputesPlace(cx, e.p, fs, scope, env, c0, o, o1)
    requires var pc := CompPlace(e.p, fs); var mc := CompMethod(pc, fs);
      Start(fs, scope) && Fits(mc.self) && Agree(cx, mc.self, Frontier(pc.fs))
    ensures var mc := CompMethod(CompPlace(e.p, fs), fs);
      && Arrive(cx, mc.self, c0, o2)
      && MethodYields(o, o2, InvokeMeaning(cx.prims, PlaceAfter(cx.prims, e.p, scope, env, o), env, o), mc,
      |fs.vlocals|, |scope|)
  {
    hide Arrive, Effect, CompE, Agree, Fits, WellFormed, LastIsCmp, InScope, DestSafe, Eval, EvalPlace, Grown,
      Frontier, Safe, CompLookup, CompFunction, CompPlace, PlaceAfter, LookupMeaning, Locals, Kept;
    RanPlace(cx, e.p, fs, scope, env, c0, o, o1);
    var pc := CompPlace(e.p, fs);
    var res := PlaceAfter(cx.prims, e.p, scope, env, o);
    if pc.LocalCode? {
      var r1 := LoadMeaning(cx.prims, res, env, o);
      LocalYields(cx, pc, res, fs, scope, env, o, o1, r1);
      o2 := SimFunction(cx, pc.fs, fs, scope, env, c0, o, o1, r1);
    } else {
      o2 := SimLookup(cx, pc, fs, scope, PlaceEnv(res, env), c0, o, o1, res);
    }
  }

  lemma LocalYields(cx: Context, pc: PlaceCode, res: PlaceResult, fs: FState, scope: seq<Slot>, env: seq<Val>,
      o: Outcome, o1: Outcome, r1: EvalResult)
    requires PlacePushed(fs, pc) && pc.LocalCode? && o1 == o && |env| == |scope| && (o.Ok? ==> Locals(o.st.regs, env))
    requires PlaceYields(o, o1, res, pc, |fs.vlocals|, |scope|, env) && !res.FieldPlace? && (o.Ok? ==> res.LocalPlace?)
    requires r1 == LoadMeaning(cx.prims, res, env, o)
    ensures Yields(o, o1, r1, Top(pc.fs), |fs.vlocals|, |scope|) && (r1.EOk? ==> r1.env == env)
    ensures FunctionMeaning(r1) == InvokeMeaning(cx.prims, res, env, o)
  {
  }

  // --- all expressions

  lemma SimConstE(cx: Context, e: Expr, fs: FState, scope: seq<Slot>, env: seq<Val>, c0: Conf,
      o: Outcome) returns (o': Outcome)
    requires Begins(cx, e, fs, scope, env, c0, o) && e.Const?
    ensures Computes(cx, e, fs, scope, env, c0, o, o')
  {
    hide Arrive, Effect, Agree, Fits, LastIsCmp, InScope, DestSafe, Eval, Frontier, Yields;
    o' := SimConst(cx, e.v, fs, scope, env, c0, o);
  }

  /** Every expression of the language. */
  lemma SimE(cx: Context, e: Expr, fs: FState, scope: seq<Slot>, env: seq<Val>, c0: Conf,
      o: Outcome) returns (o': Outcome)
    requires Begins(cx, e, fs, scope, env, c0, o)
    ensures Computes(cx, e, fs, scope, env, c0, o, o')
    decreases e, 1
  {
    hide *;
    match e
    case Unary(_, _) => o' := SimUnaryE(cx, e, fs, scope, env, c0, o);
    case Bin(_, _, _, _) => o' := SimBinE(cx, e, fs, scope, env, c0, o);
    case Load(_) => o' := SimLoadE(cx, e, fs, scope, env, c0, o);
    case And(l, r) =>
      IsAnd(l, r);
      o' := SimCircuitE(cx, e, AND, l, r, fs, scope, env, c0, o);
    case Or(l, r) =>
      IsOr(l, r);
      o' := SimCircuitE(cx, e, OR, l, r, fs, scope, env, c0, o);
    case Cond(_, _, _) => o' := SimCondE(cx, e, fs, scope, env, c0, o);
    case Assign(_, _) => o' := SimStoreE(cx, e, fs, scope, env, c0, o);
    case OpAssign(_, _, _) => o' := SimStoreE(cx, e, fs, scope, env, c0, o);
    case IncDec(_, _, _) => o' := SimIncDecE(cx, e, fs, scope, env, c0, o);
    case Const(_) => o' := SimConstE(cx, e, fs, scope, env, c0, o);
    case Array(_) => o' := SimArrayE(cx, e, fs, scope, env, c0, o);
    case Invoke(_, _) => o' := SimInvokeE(cx, e, fs, scope, env, c0, o);
    case CallValue(_, _) => o' := SimCallE(cx, e, fs, scope, env, c0, o);
  }

  lemma IsAnd(l: Expr, r: Expr)
    ensures IsCircuit(Expr.And(l, r), AND, l, r)
  {
  }

  lemma IsOr(l: Expr, r: Expr)
    ensures IsCircuit(Expr.Or(l, r), OR, l, r)
  {
  }
}
