/** `LVVM::Execute` to the letter. Two things in it are not as the proofs about programs take them: a call's
    destination is read as a signed byte, and a failing `%` is not noticed. This is the machine with both, and
    when it does the same. */
module Execute {
  import opened Bytecode
  import opened FuncState
  import opened Source
  import opened CodeGen
  import opened ExprSim
  import opened StmtGen
  import opened StmtSim
  import opened Program
  import opened Layout

  /** What is called decides where the result goes, and when. */
  datatype Callee = Closure | Native | Class | GeneratorFunction

  /** `below` is what a callee leaves in registers below its own: nothing, unless it goes astray itself. */
  datatype Machine = Machine(
    cx: Context,
    kind: (Val, seq<Val>, World) -> Callee,
    below: (Val, seq<Val>, World) -> Regs)

  function Left(m: Machine, i: Instr, st: State, regs: Regs, junk: Regs): Regs {
    var below := m.below(Rd(st.regs, i.a1), Window(st.regs, i.a2, if i.a3 >= 0 then i.a3 else 0), st.w);
    Clobber(regs, i.a2, junk) + below
  }

  function Kind(m: Machine, i: Instr, st: State): Callee {
    m.kind(Rd(st.regs, i.a1), Window(st.regs, i.a2, if i.a3 >= 0 then i.a3 else 0), st.w)
  }

  function Answer(m: Machine, i: Instr, st: State): CallResult {
    m.cx.prims.call(Rd(st.regs, i.a1), Window(st.regs, i.a2, if i.a3 >= 0 then i.a3 else 0), st.w)
  }

  /** A closure's result goes to a signed register, so from 128 on to one below the frame; a native function's
      to an unsigned one. An instance is stored before its constructor runs. A generator is stored even where
      no destination was asked for, just below the frame. */
  function CallStep(m: Machine, i: Instr, st: State): Outcome {
    match Answer(m, i, st)
    case CallThrew(w) => Raise(w)
    case Returns(v, w, junk) =>
      var after := State(Left(m, i, st, st.regs, junk), w);
      match Kind(m, i, st)
      case Closure => Ok(if Signed(i.a0) == -1 then after else Store(after, Signed(i.a0), v))
      case Native => Ok(if Signed(i.a0) == -1 then after else Store(after, i.a0, v))
      case Class =>
        var held := if Signed(i.a0) == -1 then st.regs else st.regs[i.a0 := v];
        Ok(State(Left(m, i, st, held, junk), w))
      case GeneratorFunction => Ok(Store(after, Signed(i.a0), v))
  }

  function Operands(i: Instr, st: State): seq<Val> {
    [Rd(st.regs, i.a2), Rd(st.regs, i.a1)]
  }

  /** The machine goes on after a `%` that failed, with the register as it was. */
  function ModStep(m: Machine, i: Instr, st: State): Outcome {
    match m.cx.prims.apply(Prim(MOD, i.a3, false), Operands(i, st), st.w)
    case Done(v, w) => Ok(Store(st, i.a0, v).(w := w))
    case Threw(w) => Ok(st.(w := w))
  }

  function StraightStep(m: Machine, i: Instr, st: State): Outcome
    requires Straight(i.op)
  {
    if i.op == CALL then CallStep(m, i, st) else if i.op == MOD then ModStep(m, i, st) else Effect(m.cx, i, st)
  }

  function ExecuteStep(m: Machine, c: Conf): Conf {
    match c
    case At(pc, st) =>
      if !(0 <= pc < |m.cx.code|) then c
      else
        var i := m.cx.code[pc];
        if Straight(i.op) then
          (match StraightStep(m, i, st)
           case Ok(st') => At(pc + 1, st')
           case Raise(w) => Raised(w))
        else Branch(m.cx, i, pc, st)
    case _ => c
  }

  function ExecuteRun(m: Machine, c: Conf, n: nat): Conf
    decreases n
  {
    if n == 0 then c else ExecuteRun(m, ExecuteStep(m, c), n - 1)
  }

  ghost predicate Executes(m: Machine, c: Conf, d: Conf) {
    exists n: nat :: ExecuteRun(m, c, n) == d
  }

  // --- when a step is as it should be

  /** What a step needs: of a `%`, that it does not fail; of a call that returns, that the callee stays in its
      own registers, and that its result has a register that is right for what was called. */
  predicate Regular(m: Machine, i: Instr, st: State) {
    if i.op == MOD then !m.cx.prims.apply(Prim(MOD, i.a3, false), Operands(i, st), st.w).Threw?
    else if i.op == CALL && Answer(m, i, st).Returns? then
      var r := Answer(m, i, st);
      && 0 <= i.a0 < 256
      && m.below(Rd(st.regs, i.a1), Window(st.regs, i.a2, if i.a3 >= 0 then i.a3 else 0), st.w) == map[]
      && match Kind(m, i, st)
         case Closure => i.a0 < 128 || i.a0 == NO_TARGET
         case Native => true
         case Class => i.a0 == NO_TARGET || i.a0 < i.a2 || (i.a0 in r.junk && r.junk[i.a0] == r.v)
         case GeneratorFunction => i.a0 < 128
    else true
  }

  lemma RegularStep(m: Machine, i: Instr, st: State)
    requires Straight(i.op) && Regular(m, i, st)
    ensures StraightStep(m, i, st) == Effect(m.cx, i, st)
  {
    hide *;
    if i.op == CALL {
      RegularCall(m, i, st);
      CallIs(m.cx, i, st);
    } else if i.op == MOD {
      ModIs(m, i, st);
    }
    StepIs(m, i, st);
  }

  lemma StepIs(m: Machine, i: Instr, st: State)
    requires Straight(i.op)
    ensures StraightStep(m, i, st)
      == if i.op == CALL then CallStep(m, i, st) else if i.op == MOD then ModStep(m, i, st) else Effect(m.cx, i, st)
  {
    hide CallStep, ModStep, Effect;
  }

  lemma CallIs(cx: Context, i: Instr, st: State)
    requires i.op == CALL
    ensures Straight(i.op) && Effect(cx, i, st) == Call(cx, i, st)
  {
    hide Call;
  }

  /** A `%` that fails is told apart at once: the one machine raises, the other goes on. */
  lemma ModIs(m: Machine, i: Instr, st: State)
    requires i.op == MOD
    ensures Straight(i.op) && (ModStep(m, i, st) == Effect(m.cx, i, st) <==> Regular(m, i, st))
  {
    assert Effect(m.cx, i, st) == Apply(m.cx, Prim(MOD, i.a3, false), Operands(i, st), i.a0, st) by {
      hide Apply, Operands;
      BinaryIs(m.cx, i, st);
    }
  }

  lemma BinaryIs(cx: Context, i: Instr, st: State)
    requires i.op == MOD
    ensures Straight(i.op) && Effect(cx, i, st) == Apply(cx, Prim(MOD, i.a3, false), Operands(i, st), i.a0, st)
  {
  }

  lemma RegularCall(m: Machine, i: Instr, st: State)
    requires i.op == CALL && Regular(m, i, st)
    ensures CallStep(m, i, st) == Call(m.cx, i, st)
  {
    hide Clobber;
    match Answer(m, i, st)
    case CallThrew(_) =>
    case Returns(v, w, junk) =>
      assert forall regs: Regs :: Clobber(regs, i.a2, junk) + map[] == Clobber(regs, i.a2, junk);
      if Kind(m, i, st) == Class && i.a0 != NO_TARGET {
        HeldBefore(st.regs, i.a0, v, i.a2, junk);
      }
  }

  lemma HeldBefore(regs: Regs, r: int, v: Val, base: int, junk: Regs)
    requires r < base || (r in junk && junk[r] == v)
    ensures Clobber(regs[r := v], base, junk) == Clobber(regs, base, junk)[r := v]
  {
  }

  // --- call results, whatever is called with

  /** A closure that answers and stays in its own registers. */
  predicate Answers(m: Machine, i: Instr, st: State) {
    && i.op == CALL && Answer(m, i, st).Returns? && Kind(m, i, st) == Closure
    && m.below(Rd(st.regs, i.a1), Window(st.regs, i.a2, if i.a3 >= 0 then i.a3 else 0), st.w) == map[]
  }

  /** Its result is in the register that was asked for. */
  predicate Lands(m: Machine, i: Instr, st: State)
    requires Answers(m, i, st)
  {
    CallStep(m, i, st).Ok? && Rd(CallStep(m, i, st).st.regs, i.a0) == Answer(m, i, st).v
  }

  ghost predicate AlwaysLands(i: Instr) {
    forall m: Machine, st: State :: Answers(m, i, st) ==> Lands(m, i, st)
  }

  /** The result of a closure arrives exactly if its register is below 128. */
  lemma CallLandsIff(i: Instr)
    requires i.op == CALL && 0 <= i.a0 < 256
    ensures AlwaysLands(i) <==> i.a0 < 128
  {
    hide Clobber;
    if i.a0 < 128 {
      forall m: Machine, st: State | Answers(m, i, st) ensures Lands(m, i, st) {
      }
    } else {
      var m := Machine(Context([], [], Prims((p: Prim, a: seq<Val>, w: World) => Threw(w),
        (f: Val, a: seq<Val>, w: World) => Returns(Bool(true), w, map[]), (a: int, b: int) => false)),
        (f: Val, a: seq<Val>, w: World) => Closure, (f: Val, a: seq<Val>, w: World) => map[]);
      var st := State(map[], 0);
      NothingLeft(i.a2);
      assert Answers(m, i, st) && !Lands(m, i, st);
    }
  }

  lemma NothingLeft(base: int)
    ensures var none: Regs := map[]; Clobber(none, base, none) + none == none
  {
    var none: Regs := map[];
    var r := Clobber(none, base, none);
    assert forall k :: k !in r;
  }

  /** A call in the program asks for the first register that is free. */
  lemma CallDestination(e: Expr, fs: FState)
    requires Ready(fs) && (e.Invoke? || e.CallValue?)
    ensures |CompE(e, fs).code| > 0 && Top(CompE(e, fs)) == |fs.vlocals|
    ensures var i := Last(CompE(e, fs).code); i.op == CALL && i.a0 == Byte(|fs.vlocals|)
  {
    hide *;
    if e.Invoke? {
      InvokeCode(e, fs);
      var mc := CompMethod(CompPlace(e.p, fs), fs);
      MethodReady(mc, fs);
      CallLast(e.args, mc, fs);
    } else {
      ValueCode(e, fs);
      var mc := CompFunction(CompE(e.f, fs), fs);
      MethodReady(mc, fs);
      CallLast(e.args, mc, fs);
    }
  }

  lemma InvokeCode(e: Expr, fs: FState)
    requires Ready(fs) && e.Invoke?
    ensures var mc := CompMethod(CompPlace(e.p, fs), fs); Ready(mc.self) && CompE(e, fs) == CompCall(e.args, mc, fs)
  {
    hide CompPlace, CompMethod, CompCall, MethodPushed, One;
    MethodReady(CompMethod(CompPlace(e.p, fs), fs), fs);
  }

  lemma ValueCode(e: Expr, fs: FState)
    requires Ready(fs) && e.CallValue?
    ensures var mc := CompFunction(CompE(e.f, fs), fs); Ready(mc.self) && CompE(e, fs) == CompCall(e.args, mc, fs)
  {
    hide CompFunction, CompCall, MethodPushed, One;
    MethodReady(CompFunction(CompE(e.f, fs), fs), fs);
  }

  lemma CallLast(args: seq<Expr>, mc: MethodCode, fs: FState)
    requires Ready(mc.self) && MethodPushed(fs, mc)
    ensures var fs' := CompCall(args, mc, fs);
      && |fs'.code| > 0 && Top(fs') == |fs.vlocals|
      && Last(fs'.code).op == CALL && Last(fs'.code).a0 == Byte(|fs.vlocals|)
  {
    hide CompArgs, PopMany, MethodPushed;
    var p := PopMany(CompArgs(args, mc.self), mc.self, |args|);
    CallEndLast(p, |args|, mc, fs);
  }

  lemma CallEndLast(p: FState, n: nat, mc: MethodCode, fs: FState)
    requires MethodPushed(fs, mc) && Same(mc.self, p)
    ensures var fs' := CallEnd(p, n, mc, fs);
      && |fs'.code| > 0 && Top(fs') == |fs.vlocals|
      && Last(fs'.code).op == CALL && Last(fs'.code).a0 == Byte(|fs.vlocals|)
  {
    PopTwo(fs, mc.clo, p);
  }

  /** So a call's result arrives, whatever closure is called, exactly if fewer than 128 registers are in use. */
  lemma CallResultIff(e: Expr, fs: FState)
    requires Ready(fs) && (e.Invoke? || e.CallValue?) && |fs.vlocals| < 256
    ensures |CompE(e, fs).code| > 0 && (AlwaysLands(Last(CompE(e, fs).code)) <==> |fs.vlocals| < 128)
  {
    hide *;
    CallDestination(e, fs);
    CallLandsIff(Last(CompE(e, fs).code));
  }

  // --- whole runs

  /** Every step of the run is regular. */
  ghost predicate Steady(m: Machine, c: Conf) {
    forall n: nat :: RegularAt(m, ExecuteRun(m, c, n))
  }

  predicate RegularAt(m: Machine, d: Conf) {
    d.At? && 0 <= d.pc < |m.cx.code| ==> Regular(m, m.cx.code[d.pc], d.st)
  }

  lemma SameStep(m: Machine, c: Conf)
    requires RegularAt(m, c)
    ensures ExecuteStep(m, c) == Step(m.cx, c)
  {
    hide StraightStep, Effect, Regular;
    if c.At? && 0 <= c.pc < |m.cx.code| && Straight(m.cx.code[c.pc].op) {
      RegularStep(m, m.cx.code[c.pc], c.st);
    }
  }

  /** A steady run is the run of the simple machine. */
  lemma {:induction false} SameRun(m: Machine, c: Conf, n: nat)
    requires forall k: nat :: k < n ==> RegularAt(m, ExecuteRun(m, c, k))
    ensures ExecuteRun(m, c, n) == Run(m.cx, c, n)
    decreases n
  {
    hide ExecuteStep, Step, RegularAt;
    if n > 0 {
      assert RegularAt(m, ExecuteRun(m, c, 0));
      SameStep(m, c);
      var d := ExecuteStep(m, c);
      forall k: nat | k < n - 1 ensures RegularAt(m, ExecuteRun(m, d, k)) {
        assert ExecuteRun(m, c, k + 1) == ExecuteRun(m, d, k);
      }
      SameRun(m, d, n - 1);
    }
  }

  /** On a steady run, the machine stops in a configuration exactly when the program, given enough fuel, ends
      that way. So program and bytecode return the same values, raise the same exceptions, or both run forever. */
  lemma RunsAsMeant(ss: seq<Stmt>, m: Machine, st: State, d: Conf)
    requires Compiles(ss) && m.cx == Loaded(ss, m.cx.prims) && Steady(m, At(0, st)) && !d.At?
    ensures Executes(m, At(0, st), d) <==> exists fuel: nat :: StopsAs(Meaning(m.cx.prims, ss, st, fuel), d)
  {
    hide Meaning, Loaded, Compiles, ExecuteRun, Run, RegularAt;
    ProgramCorrect(ss, m.cx.prims, st, d);
    var c0 := At(0, st);
    forall n: nat ensures ExecuteRun(m, c0, n) == Run(m.cx, c0, n) {
      SameRun(m, c0, n);
    }
    if Reach(m.cx, c0, d) {
      var n: nat :| n >= 0 && Run(m.cx, c0, n) == d;
      assert ExecuteRun(m, c0, n) == d;
    }
    if Executes(m, c0, d) {
      var n: nat :| ExecuteRun(m, c0, n) == d;
      assert Run(m.cx, c0, n) == d;
    }
  }

  /** And it is always at an instruction, until the program ends. */
  lemma RunsInside(ss: seq<Stmt>, m: Machine, st: State, n: nat)
    requires Compiles(ss) && m.cx == Loaded(ss, m.cx.prims) && Steady(m, At(0, st))
    ensures var d := ExecuteRun(m, At(0, st), n); d.At? ==> Inside(m.cx, d)
  {
    hide Meaning, Loaded, Compiles, ExecuteRun, Run, RegularAt;
    SameRun(m, At(0, st), n);
    ProgramSafe(ss, m.cx.prims, st, n);
  }

  /** Enough for every step at an instruction to be regular: of a `%`, that it fails for no operands; of a call,
      that every callee stays in its own registers and that the result's register is right for its kind. */
  ghost predicate CalmAt(m: Machine, i: Instr) {
    && (i.op == MOD ==> forall a: seq<Val>, w: World :: !m.cx.prims.apply(Prim(MOD, i.a3, false), a, w).Threw?)
    && (i.op == CALL ==> 0 <= i.a0 < 256 && forall f: Val, a: seq<Val>, w: World ::
      m.below(f, a, w) == map[] && Suits(m.kind(f, a, w), i))
  }

  predicate Suits(kind: Callee, i: Instr) {
    match kind
    case Closure => i.a0 < 128 || i.a0 == NO_TARGET
    case Native => true
    case Class => i.a0 == NO_TARGET || i.a0 < i.a2
    case GeneratorFunction => i.a0 < 128
  }

  /** Only the instructions that are in the code matter: without a `%` and without calls, nothing is asked. */
  ghost predicate Calm(m: Machine) {
    forall k :: 0 <= k < |m.cx.code| ==> CalmAt(m, m.cx.code[k])
  }

  lemma CalmSteady(m: Machine, c: Conf)
    requires Calm(m)
    ensures Steady(m, c)
  {
    hide ExecuteRun;
    forall n: nat ensures RegularAt(m, ExecuteRun(m, c, n)) {
      var d := ExecuteRun(m, c, n);
      if d.At? && 0 <= d.pc < |m.cx.code| {
        assert CalmAt(m, m.cx.code[d.pc]);
      }
    }
  }

  /** Where a run that was steady comes to a `%` that fails, the program raises; the machine goes on. */
  lemma FailurePassed(ss: seq<Stmt>, m: Machine, st: State, n: nat, pc: int, at: State, w1: World)
    requires Compiles(ss) && m.cx == Loaded(ss, m.cx.prims)
    requires forall k: nat :: k < n ==> RegularAt(m, ExecuteRun(m, At(0, st), k))
    requires ExecuteRun(m, At(0, st), n) == At(pc, at) && 0 <= pc < |m.cx.code| && m.cx.code[pc].op == MOD
    requires m.cx.prims.apply(Prim(MOD, m.cx.code[pc].a3, false), Operands(m.cx.code[pc], at), at.w) == Threw(w1)
    ensures exists fuel: nat :: StopsAs(Meaning(m.cx.prims, ss, st, fuel), Raised(w1))
    ensures ExecuteStep(m, At(pc, at)) == At(pc + 1, at.(w := w1))
  {
    hide Meaning, Loaded, Compiles, ExecuteRun, RegularAt, Effect, Operands, StopsAs, CallStep;
    var c0 := At(0, st);
    SameRun(m, c0, n);
    BinaryIs(m.cx, m.cx.code[pc], at);
    assert Step(m.cx, At(pc, at)) == Raised(w1);
    assert Run(m.cx, Run(m.cx, c0, n), 1) == Raised(w1);
    RunAdd(m.cx, c0, n, 1);
    assert Run(m.cx, c0, n + 1) == Raised(w1);
    ProgramCorrect(ss, m.cx.prims, st, Raised(w1));
  }

  // --- where it does not

  /** `1 % 0`: where that fails, the expression raises; the machine goes on, and the value is 1. */
  lemma ModuloByZero(e: Expr, fs: FState, prims: Prims, kind: (Val, seq<Val>, World) -> Callee,
      below: (Val, seq<Val>, World) -> Regs, st: State, w1: World)
    requires e == Bin(MOD, 0, Const(Int(1)), Const(Int(0))) && Ready(fs) && |fs.vlocals| < 250
    requires prims.apply(Prim(MOD, 0, false), [Int(1), Int(0)], st.w) == Threw(w1)
    ensures EvalValue(prims, e, [], [], st.w) == EThrow(w1)
    ensures var n := |fs.vlocals|;
      && CompE(e, fs).code == fs.code + [Ins(LOADINT, n, 1), Ins(LOADINT, n + 1, 0), Ins(MOD, n, n + 1, n)]
      && var c := ExecuteRun(Machine(Context(CompE(e, fs).code, [], prims), kind, below), At(|fs.code|, st), 3);
        c == At(|fs.code| + 3, State(st.regs[n := Int(1)][n + 1 := Int(0)], w1))
  {
    hide *;
    ModCode(e, fs);
    ModMeans(e, prims, st.w, w1);
    var n := |fs.vlocals|;
    var m := Machine(Context(CompE(e, fs).code, [], prims), kind, below);
    ModRun(m, |fs.code|, n, st, w1);
  }

  lemma ModMeans(e: Expr, prims: Prims, w: World, w1: World)
    requires e == Bin(MOD, 0, Const(Int(1)), Const(Int(0)))
    requires prims.apply(Prim(MOD, 0, false), [Int(1), Int(0)], w) == Threw(w1)
    ensures EvalValue(prims, e, [], [], w) == EThrow(w1)
  {
    assert Eval(prims, e.l, [], [], w) == EOk(Value(Int(1)), [], w);
    assert Eval(prims, e.r, [], [], w) == EOk(Value(Int(0)), [], w);
  }

  lemma ModCode(e: Expr, fs: FState)
    requires e == Bin(MOD, 0, Const(Int(1)), Const(Int(0))) && Ready(fs) && |fs.vlocals| < 250
    ensures var n := |fs.vlocals|;
      CompE(e, fs).code == fs.code + [Ins(LOADINT, n, 1), Ins(LOADINT, n + 1, 0), Ins(MOD, n, n + 1, n)]
  {
    hide *;
    BinCode(e, fs);
    IntCode(1, fs);
    var fs1 := CompE(e.l, fs);
    IntCode(0, fs1);
    var fs2 := CompE(e.r, fs1);
    ModEnd(fs2, fs1, fs);
    assert CompE(e, fs).code == fs.code + [Ins(LOADINT, |fs.vlocals|, 1)] + [Ins(LOADINT, |fs.vlocals| + 1, 0)]
      + [Ins(MOD, |fs.vlocals|, |fs.vlocals| + 1, |fs.vlocals|)];
  }

  lemma ModEnd(fs2: FState, fs1: FState, fs: FState)
    requires One(fs, fs1) && One(fs1, fs2) && Top(fs1) == |fs.vlocals| && Top(fs2) == |fs1.vlocals| == |fs.vlocals| + 1
    ensures BinEnd(MOD, 0, fs2, fs1, fs).code == fs2.code + [Ins(MOD, |fs.vlocals|, |fs.vlocals| + 1, |fs.vlocals|)]
  {
    hide CodeGen.Result, Grown;
    PopTwo(fs, fs1, fs2);
    ResultAppends(Pop(Pop(fs2)), MOD, |fs.vlocals| + 1, |fs.vlocals|);
  }

  lemma IntCode(k: int, fs: FState)
    requires Ready(fs) && 0 <= k <= 1
    ensures CompE(Const(Int(k)), fs).code == fs.code + [Ins(LOADINT, |fs.vlocals|, k)]
    ensures Ready(CompE(Const(Int(k)), fs)) && Top(CompE(Const(Int(k)), fs)) == |fs.vlocals|
      && |CompE(Const(Int(k)), fs).vlocals| == |fs.vlocals| + 1
  {
    hide CodeGen.Result;
    LoadAppends(fs, k);
    OneReady(fs, CompE(Const(Int(k)), fs));
  }

  lemma LoadAppends(p: FState, k: int)
    ensures CodeGen.Result(p, LOADINT, k).code == p.code + [Ins(LOADINT, |p.vlocals|, k)]
  {
  }

  lemma ResultAppends(p: FState, op: Op, a1: int, a2: int)
    requires op == MOD
    ensures CodeGen.Result(p, op, a1, a2, 0).code == p.code + [Ins(op, |p.vlocals|, a1, a2, 0)]
  {
  }

  lemma ModRun(m: Machine, pc: nat, n: nat, st: State, w1: World)
    requires |m.cx.code| == pc + 3 && n < 250 && m.cx.code[pc] == Ins(LOADINT, n, 1)
      && m.cx.code[pc + 1] == Ins(LOADINT, n + 1, 0) && m.cx.code[pc + 2] == Ins(MOD, n, n + 1, n)
    requires m.cx.prims.apply(Prim(MOD, 0, false), [Int(1), Int(0)], st.w) == Threw(w1)
    ensures ExecuteRun(m, At(pc, st), 3) == At(pc + 3, State(st.regs[n := Int(1)][n + 1 := Int(0)], w1))
  {
    hide ExecuteStep;
    var st1 := Store(st, n, Int(1));
    var st2 := Store(st1, n + 1, Int(0));
    LoadStep(m, pc, n, 1, st);
    LoadStep(m, pc + 1, n + 1, 0, st1);
    ModFails(m, pc + 2, n, st2, w1);
    ThreeSteps(m, At(pc, st), At(pc + 1, st1), At(pc + 2, st2), At(pc + 3, st2.(w := w1)));
  }

  lemma ThreeSteps(m: Machine, a: Conf, b: Conf, c: Conf, d: Conf)
    requires ExecuteStep(m, a) == b && ExecuteStep(m, b) == c && ExecuteStep(m, c) == d
    ensures ExecuteRun(m, a, 3) == d
  {
    hide ExecuteStep;
    assert ExecuteRun(m, d, 0) == d;
    assert ExecuteRun(m, c, 1) == ExecuteRun(m, d, 0);
    assert ExecuteRun(m, b, 2) == ExecuteRun(m, c, 1);
  }

  lemma LoadStep(m: Machine, pc: nat, n: nat, k: int, st: State)
    requires pc < |m.cx.code| && n < 256 && m.cx.code[pc] == Ins(LOADINT, n, k)
    ensures ExecuteStep(m, At(pc, st)) == At(pc + 1, Store(st, n, Int(k)))
  {
  }

  lemma ModFails(m: Machine, pc: nat, n: nat, st: State, w1: World)
    requires pc < |m.cx.code| && n < 250 && m.cx.code[pc] == Ins(MOD, n, n + 1, n)
    requires Rd(st.regs, n) == Int(1) && Rd(st.regs, n + 1) == Int(0)
    requires m.cx.prims.apply(Prim(MOD, 0, false), [Int(1), Int(0)], st.w) == Threw(w1)
    ensures ExecuteStep(m, At(pc, st)) == At(pc + 1, st.(w := w1))
  {
    hide Effect, CallStep;
    assert Operands(m.cx.code[pc], st) == [Int(1), Int(0)];
  }

  /** `n` variables, without a value. */
  function Variables(n: nat): seq<Stmt> {
    if n == 0 then [] else [VarDecl("v", None)] + Variables(n - 1)
  }

  lemma {:induction false} ManyVariables(n: nat, fs: FState)
    requires Legal(fs)
    ensures |CompAll(Variables(n), fs).vlocals| == |fs.vlocals| + n && Legal(CompAll(Variables(n), fs))
    decreases n
  {
    hide CompS, Legal, Stmts;
    if n == 0 {
      assert Variables(0) == [];
    } else {
      var rest := Variables(n - 1);
      var all := [VarDecl("v", None)] + rest;
      assert all == Variables(n) && all[0] == VarDecl("v", None) && all[1..] == rest;
      OneVariable(fs);
      var fs1 := CompS(all[0], fs);
      ManyVariables(n - 1, fs1);
    }
    StmtsLegal(fs, CompAll(Variables(n), fs));
  }

  lemma OneVariable(fs: FState)
    requires Legal(fs)
    ensures var fs1 := CompS(VarDecl("v", None), fs); Legal(fs1) && |fs1.vlocals| == |fs.vlocals| + 1
  {
    hide Legal, Stmts, CompBody;
    var s := VarDecl("v", None);
    StmtsLegal(fs, CompS(s, fs));
    VariableAdded(s, fs);
    assert CompS(s, fs) == Snooze(CompBody(s, fs));
  }

  lemma VariableAdded(s: Stmt, fs: FState)
    requires Legal(fs) && s == VarDecl("v", None)
    ensures CompBody(s, fs).vlocals == fs.vlocals + [Named("v")]
  {
    hide Legal, Stmts, CodeGen.Result, DeclEnd;
  }

  /** After 126 variables, `f()` asks for register 128, and the result of a closure goes below the frame. */
  lemma After126(fs: FState)
    requires Legal(START) && fs == CompAll(Variables(126), START)
    ensures |fs.vlocals| == 128 && Ready(fs)
    ensures var e := Invoke(Name("f"), []);
      |CompE(e, fs).code| > 0 && Last(CompE(e, fs).code).a0 == 128 && !AlwaysLands(Last(CompE(e, fs).code))
  {
    hide *;
    ManyVariables(126, START);
    LegalReady(fs);
    StartSize();
    CallDestination(Invoke(Name("f"), []), fs);
    CallResultIff(Invoke(Name("f"), []), fs);
  }

  lemma StartSize()
    ensures |START.vlocals| == 2
  {
  }
}
