/** Whole programs: the bytecode of a program that compiles does what the program means, and nothing else. */
module Program {
  import opened Bytecode
  import opened FuncState
  import opened Source
  import opened CodeGen
  import opened Simulation
  import opened Layout
  import opened StmtGen
  import opened StmtLay
  import opened StmtSim
  import opened ExprSim

  // --- break and continue

  /** No `break` or `continue` outside a loop. */
  predicate Closed(s: Stmt, inLoop: bool)
    decreases s, 1
  {
    match s
    case Block(ss) => ClosedAll(ss, inLoop)
    case If(_, t, f) => Closed(t, inLoop) && (f.Some? ==> Closed(f.value, inLoop))
    case While(_, b) => Closed(b, true)
    case DoWhile(b, _) => Closed(b, true)
    case Break => inLoop
    case Continue => inLoop
    case _ => true
  }

  predicate ClosedAll(ss: seq<Stmt>, inLoop: bool)
    decreases ss, 0
  {
    ss == [] || (Closed(ss[0], inLoop) && ClosedAll(ss[1..], inLoop))
  }

  /** What compiling a statement does to the error flag and, outside loops, to the unresolved jumps. */
  predicate Reports(fs: FState, fs': FState, closed: bool) {
    && fs'.loops == fs.loops
    && (fs'.ok ==> closed) && (Fits(fs') && fs.ok && closed ==> fs'.ok)
    && (fs.loops == 0 && fs'.ok ==> fs'.breaks == fs.breaks && fs'.conts == fs.conts)
    && (fs'.ok ==> fs.ok) && fs.stacksize <= fs'.stacksize
  }

  lemma ReportsTrans(a: FState, b: FState, c: FState, p: bool, q: bool)
    requires Reports(a, b, p) && Reports(b, c, q)
    ensures Reports(a, c, p && q)
  {
  }

  /** Code of expressions only. */
  lemma GrownReports(fs: FState, fs': FState)
    requires Grown(fs, fs')
    ensures Reports(fs, fs', true)
  {
  }

  lemma ReportsS(s: Stmt, fs: FState)
    requires Legal(fs)
    ensures Reports(fs, CompS(s, fs), Closed(s, fs.loops > 0))
    decreases s, 3
  {
    hide CompBody, Closed;
    ReportsBody(s, fs);
  }

  lemma ReportsBody(s: Stmt, fs: FState)
    requires Legal(fs)
    ensures Reports(fs, CompBody(s, fs), Closed(s, fs.loops > 0))
    decreases s, 2
  {
    hide CompE, CompS, CompAll, IfBlock, ExprEnd, DeclEnd, DeclMove, Result, CondTest, IfEnd, IfElseEnd, ElseJump,
      WhileTest, WhileEnd, DoWhileEnd,
      ReturnEnd, ReturnNull, Jump, EndScope, BeginLoop, Legal, One, Stmts, CondPushed, Reports;
    LegalReady(fs);
    match s {
      case Empty => ReportsSelf(fs);
      case ExprStmt(e) => ReportsExpr(CompE(e, fs), fs);
      case VarDecl(x, init) =>
        if init.None? {
          ReportsDecl(x, Result(fs, LOADNULLS, 1), fs);
        } else {
          ReportsDecl(x, DeclMove(CompE(init.value, fs), fs), fs);
        }
      case Block(ss) =>
        ReportsAll(ss, fs);
        ReportsScope(CompAll(ss, fs), fs, fs, |fs.vlocals|, ClosedAll(ss, fs.loops > 0));
      case If(c, t, f) => ReportsIf(s, fs);
      case While(c, b) =>
        var jz := WhileTest(CompE(c, fs), fs);
        WhileLoops(CompE(c, fs), fs);
        ReportsS(b, jz);
        ReportsWhile(CompE(c, fs), CompS(b, jz), jz, fs, Closed(b, true));
      case DoWhile(b, c) =>
        var start := BeginLoop(fs);
        ReportsS(b, start);
        var body := EndScope(CompS(b, start), start, |fs.vlocals|);
        LegalReady(body);
        ReportsDo(CompE(c, body), body, CompS(b, start), start, fs, Closed(b, true));
      case Break => ReportsJump(fs, true);
      case Continue => ReportsJump(fs, false);
      case Return(r) =>
        if r.None? {
          ReportsNull(fs);
        } else {
          ReportsReturn(CompE(r.value, fs), fs);
        }
    }
  }

  lemma ReportsSelf(fs: FState)
    ensures Reports(fs, fs, true)
  {
  }

  lemma ReportsExpr(fs1: FState, fs: FState)
    requires Legal(fs) && One(fs, fs1)
    ensures Reports(fs, ExprEnd(fs1, fs), true)
  {
  }

  lemma ReportsDecl(x: string, fs2: FState, fs: FState)
    requires Legal(fs) && One(fs, fs2)
    ensures Reports(fs, DeclEnd(x, fs2, fs), true)
  {
  }

  lemma ReportsScope(u: FState, start: FState, fs: FState, n: nat, closed: bool)
    requires Reports(fs, u, closed) && Legal(start) && Stmts(start, u) && n == |start.vlocals|
    ensures Reports(fs, EndScope(u, start, n), closed)
  {
  }

  lemma ReportsNull(fs: FState)
    requires Legal(fs)
    ensures Reports(fs, ReturnNull(fs), true)
  {
  }

  lemma ReportsReturn(fs1: FState, fs: FState)
    requires Legal(fs) && One(fs, fs1)
    ensures Reports(fs, ReturnEnd(fs1, fs), true)
  {
  }

  lemma ReportsJump(fs: FState, isBreak: bool)
    requires Legal(fs)
    ensures Reports(fs, Jump(fs, isBreak), fs.loops > 0)
  {
  }

  lemma ReportsTest(fs1: FState, fs: FState)
    requires One(fs, fs1)
    ensures Reports(fs, CondTest(fs1, fs), true)
  {
  }

  lemma ReportsElse(t': FState, jz: FState, fs: FState)
    requires Legal(fs) && CondPushed(fs, jz) && Stmts(jz, t')
    ensures Reports(t', ElseJump(t', jz, fs), true)
  {
  }

  lemma ReportsPatched(fs: FState, u: FState, v: FState, closed: bool)
    requires Reports(fs, u, closed) && v == u.(code := v.code)
    ensures Reports(fs, v, closed)
  {
  }

  lemma ReportsIf(s: Stmt, fs: FState)
    requires Legal(fs) && s.If?
    ensures Reports(fs, CompBody(s, fs), Closed(s, fs.loops > 0))
    decreases s, 1
  {
    hide CompE, IfBlock, CondTest, ElseJump, Legal, One, Stmts, CondPushed, Reports;
    LegalReady(fs);
    var fs1 := CompE(s.c, fs);
    var jz := CondTest(fs1, fs);
    TestStmts(fs, jz);
    ReportsTest(fs1, fs);
    var t' := IfBlock(s.t, jz);
    ReportsBranch(s.t, jz);
    SameLoops(fs, jz, true);
    ReportsTrans(fs, jz, t', true, Closed(s.t, fs.loops > 0));
    if s.f.None? {
      ReportsPatched(fs, t', IfEnd(t', jz, fs), Closed(s.t, fs.loops > 0));
    } else {
      var jmp := ElseJump(t', jz, fs);
      ReportsElse(t', jz, fs);
      ReportsTrans(fs, t', jmp, Closed(s.t, fs.loops > 0), true);
      var f' := IfBlock(s.f.value, jmp);
      ReportsBranch(s.f.value, jmp);
      SameLoops(fs, jmp, Closed(s.t, fs.loops > 0));
      ReportsTrans(fs, jmp, f', Closed(s.t, fs.loops > 0), Closed(s.f.value, fs.loops > 0));
      ReportsPatched(fs, f', IfElseEnd(f', jmp, t', jz, fs), Closed(s.t, fs.loops > 0)
        && Closed(s.f.value, fs.loops > 0));
    }
  }

  lemma SameLoops(fs: FState, u: FState, closed: bool)
    requires Reports(fs, u, closed)
    ensures u.loops == fs.loops
  {
  }

  lemma ReportsBranch(s: Stmt, fs: FState)
    requires Legal(fs)
    ensures Reports(fs, IfBlock(s, fs), Closed(s, fs.loops > 0))
    decreases s, 4
  {
    hide CompAll, CompS, Reports, Legal, Stmts;
    if s.Block? {
      ReportsAll(s.ss, fs);
      ReportsScope(CompAll(s.ss, fs), fs, fs, |fs.vlocals|, ClosedAll(s.ss, fs.loops > 0));
    } else {
      ReportsS(s, fs);
    }
  }

  lemma ReportsAll(ss: seq<Stmt>, fs: FState)
    requires Legal(fs)
    ensures Reports(fs, CompAll(ss, fs), ClosedAll(ss, fs.loops > 0))
    decreases ss, 1
  {
    hide CompS, Reports, Legal, Stmts;
    if ss == [] {
      ReportsSelf(fs);
    } else {
      var fs1 := CompS(ss[0], fs);
      StmtsLegal(fs, fs1);
      ReportsS(ss[0], fs);
      ReportsAll(ss[1..], fs1);
      SameLoops(fs, fs1, Closed(ss[0], fs.loops > 0));
      ReportsTrans(fs, fs1, CompAll(ss, fs), Closed(ss[0], fs.loops > 0), ClosedAll(ss[1..], fs.loops > 0));
    }
  }

  lemma WhileLoops(fs1: FState, fs: FState)
    requires Legal(fs) && One(fs, fs1)
    ensures WhileTest(fs1, fs).loops == fs.loops + 1
  {
  }

  /** Inside a loop jumps are allowed, and after it they are resolved. */
  lemma ReportsWhile(fs1: FState, body: FState, jz: FState, fs: FState, closed: bool)
    requires Legal(fs) && One(fs, fs1) && jz == WhileTest(fs1, fs) && Stmts(jz, body) && Reports(jz, body, closed)
    ensures Reports(fs, WhileEnd(body, jz, fs), closed)
  {
    hide EndLoop;
    ReportsTest(fs1, fs);
    LoopReports(LoopBack(body, jz, fs), Pos(fs), fs);
    BackReports(body, jz, fs);
  }

  lemma BackReports(body: FState, jz: FState, fs: FState)
    requires Legal(fs) && CondPushed(fs.(loops := fs.loops + 1), jz) && Stmts(jz, body)
    ensures var back := LoopBack(body, jz, fs);
      back.ok == body.ok && back.stacksize == body.stacksize && back.loops == body.loops
  {
  }

  lemma LoopReports(back: FState, target: int, fs: FState)
    requires Legal(fs) && Stmts(fs.(loops := fs.loops + 1), back)
    ensures var fs' := EndLoop(back, |fs.breaks|, |fs.conts|, target, fs);
      && fs'.ok == back.ok && fs'.stacksize == back.stacksize && fs'.loops == fs.loops
      && fs'.breaks == fs.breaks && fs'.conts == fs.conts
  {
  }

  lemma ReportsDo(fs1: FState, body: FState, last: FState, start: FState, fs: FState, closed: bool)
    requires Legal(fs) && start == BeginLoop(fs) && Stmts(start, last) && body == EndScope(last, start, |fs.vlocals|)
      && One(body, fs1)
    requires Reports(start, last, closed)
    ensures Stmts(fs.(loops := fs.loops + 1), body) && body.vlocals == fs.vlocals
    ensures Reports(fs, DoWhileEnd(fs1, body, fs), closed)
  {
    hide EndLoop;
    DoWhileIs(fs1, body, fs);
    LoopReports(DoTest(fs1, body, fs), Pos(body), fs);
    DoReports(fs1, body, fs);
  }

  lemma DoReports(fs1: FState, body: FState, fs: FState)
    requires JumpsValid(body) && One(body, fs1)
    ensures var back := DoTest(fs1, body, fs); back.ok == fs1.ok && back.stacksize == fs1.stacksize
  {
    PopOne(body, fs1);
  }

  /** A closed statement never breaks out of nothing. */
  lemma {:induction false} ClosedExec(pr: Prims, s: Stmt, scope: seq<Slot>, env: seq<Val>, w: World, fuel: nat)
    requires |env| == |scope| && Closed(s, false)
    ensures !Exec(pr, s, scope, env, w, fuel).Broke? && !Exec(pr, s, scope, env, w, fuel).Continued?
    decreases fuel, s, 1
  {
    hide Eval;
    match s {
      case Block(ss) => ClosedExecAll(pr, ss, scope, env, w, fuel);
      case If(c, t, f) =>
        var r1 := Eval(pr, c, scope, env, w);
        if r1.EOk? {
          if !IsFalse(Deref(r1.o, r1.env)) {
            ClosedExec(pr, t, scope, r1.env, r1.w, fuel);
          } else if f.Some? {
            ClosedExec(pr, f.value, scope, r1.env, r1.w, fuel);
          }
        }
      case While(_, _) => LoopExec(pr, s, scope, env, w, fuel);
      case DoWhile(_, _) => LoopExec(pr, s, scope, env, w, fuel);
      case _ =>
    }
  }

  lemma {:induction false} LoopExec(pr: Prims, s: Stmt, scope: seq<Slot>, env: seq<Val>, w: World, fuel: nat)
    requires |env| == |scope| && (s.While? || s.DoWhile?)
    ensures !Exec(pr, s, scope, env, w, fuel).Broke? && !Exec(pr, s, scope, env, w, fuel).Continued?
    decreases fuel
  {
    hide Eval, Exec;
    if fuel == 0 {
      OutOfFuel(pr, s, scope, env, w);
    } else if s.While? {
      WhileUnfold(pr, s, scope, env, w, fuel);
      var r1 := Eval(pr, s.c, scope, env, w);
      if r1.EOk? {
        var res := Exec(pr, s.b, scope, r1.env, r1.w, fuel);
        if HasEnv(res) && |Cut(res.env, |scope|)| == |scope| {
          LoopExec(pr, s, scope, Cut(res.env, |scope|), res.w, fuel - 1);
        }
      }
    } else {
      DoUnfold(pr, s, scope, env, w, fuel);
      var res := Exec(pr, s.b, scope, env, w, fuel);
      if HasEnv(res) && |Cut(res.env, |scope|)| == |scope| {
        var r1 := Eval(pr, s.c, scope, Cut(res.env, |scope|), res.w);
        if r1.EOk? {
          LoopExec(pr, s, scope, r1.env, r1.w, fuel - 1);
        }
      }
    }
  }

  lemma {:induction false} ClosedExecAll(pr: Prims, ss: seq<Stmt>, scope: seq<Slot>, env: seq<Val>, w: World, fuel: nat)
    requires |env| == |scope| && ClosedAll(ss, false)
    ensures !ExecAll(pr, ss, scope, env, w, fuel).Broke? && !ExecAll(pr, ss, scope, env, w, fuel).Continued?
    decreases fuel, ss, 0
  {
    hide Exec;
    if ss != [] {
      ClosedExec(pr, ss[0], scope, env, w, fuel);
      var res := Exec(pr, ss[0], scope, env, w, fuel);
      if res.Fell? {
        ClosedExecAll(pr, ss[1..], ScopeAfter(ss[0], scope), res.env, res.w, fuel);
      }
    }
  }

  // --- running a program

  const SCOPE := [Named("this"), Named("vargv")]

  lemma StartsLegal()
    ensures Boundary(START) && Legal(START) && Ready(START) && START.vlocals == SCOPE
  {
  }

  /** A program that compiles: no error was raised, it is admissible, and its registers fit a byte. */
  predicate Compiles(ss: seq<Stmt>) {
    AdmissibleAll(ss, SCOPE) && Fits(CompProgram(ss)) && CompProgram(ss).ok
  }

  function Loaded(ss: seq<Stmt>, prims: Prims): Context {
    Context(CompProgram(ss).code, CompProgram(ss).lits, prims)
  }

  /** The program's two parameters are in the first registers; nothing is assumed of the others. */
  function Params(regs: Regs): seq<Val> {
    [Rd(regs, 0), Rd(regs, 1)]
  }

  function Meaning(prims: Prims, ss: seq<Stmt>, st: State, fuel: nat): Flow {
    ExecAll(prims, ss, SCOPE, Params(st.regs), st.w, fuel)
  }

  /** How the machine stops when the program ends so. */
  ghost predicate StopsAs(res: Flow, d: Conf) {
    match res
    case Fell(_, w) => d == Returned(Null, w)
    case Left(v, w) => d == Returned(v, w)
    case Thrown(w) => d == Raised(w)
    case _ => false
  }

  lemma ProgramParts(ss: seq<Stmt>, prims: Prims)
    requires Compiles(ss)
    ensures StartsLegalNow()
    ensures var body := CompAll(ss, START); var cx := Loaded(ss, prims);
      && Fits(body) && body.breaks == [] && body.conts == [] && ClosedAll(ss, false)
      && AgreeS(cx, START, body, 0, 0)
      && |cx.code| == |body.code| + 1 && cx.code[|body.code|] == Ins(RETURN, 0xFF)
  {
    hide CompAll, Stmts, Reports;
    StartsLegal();
    var body := CompAll(ss, START);
    ReportsAll(ss, START);
    AddAppends(SetStackSize(body, 2), Ins(RETURN, 0xFF));
    ProgramJumps(body, ClosedAll(ss, false));
  }

  predicate StartsLegalNow() {
    Boundary(START) && Legal(START) && Ready(START) && START.vlocals == SCOPE
  }

  lemma ProgramJumps(body: FState, closed: bool)
    requires Reports(START, body, closed) && body.ok
    ensures body.breaks == [] && body.conts == [] && closed
  {
  }

  /** What the machine does is what the program means, for every fuel. */
  lemma ProgramSim(ss: seq<Stmt>, prims: Prims, st: State, fuel: nat)
    requires Compiles(ss)
    ensures var res := Meaning(prims, ss, st, fuel); var cx := Loaded(ss, prims); var c0 := At(0, st);
      if res.Timeout? then Running(cx, c0, fuel) else exists d :: StopsAs(res, d) && Reach(cx, c0, d)
  {
    hide CompAll, AgreeS, Boundary, Legal, Reach, Running, ClosedAll, AdmissibleAll, Exec, ExecAll;
    ProgramParts(ss, prims);
    var cx := Loaded(ss, prims);
    var env := Params(st.regs);
    var body := CompAll(ss, START);
    assert Enters(START, st, env);
    SimAll(cx, ss, START, env, st, 0, 0, fuel);
    ClosedExecAll(prims, ss, SCOPE, env, st.w, fuel);
    var res := Meaning(prims, ss, st, fuel);
    if res.Fell? {
      ReturnsNull(cx, At(0, st), |body.code|, res.env, res.w);
      assert StopsAs(res, Returned(Null, res.w));
    } else if res.Left? {
      assert StopsAs(res, Returned(res.v, res.w));
    } else if res.Thrown? {
      assert StopsAs(res, Raised(res.w));
    }
  }

  lemma ReturnsNull(cx: Context, c0: Conf, pc: int, env: seq<Val>, w: World)
    requires Lands(cx, c0, pc, env, w) && 0 <= pc < |cx.code| && cx.code[pc] == Ins(RETURN, 0xFF)
    ensures Reach(cx, c0, Returned(Null, w))
  {
    var st :| LandsAt(cx, c0, pc, st, env, w);
    ReachStep(cx, At(pc, st));
    ReachTrans(cx, c0, At(pc, st), Returned(Null, w), 0, 1);
    ReachWeaken(cx, c0, Returned(Null, w), 1, 0);
  }

  // --- the machine is deterministic

  /** A configuration that takes no step. */
  predicate Stuck(cx: Context, d: Conf) {
    d.At? ==> !(0 <= d.pc < |cx.code|)
  }

  lemma {:induction false} StuckStays(cx: Context, d: Conf, n: nat)
    requires Stuck(cx, d)
    ensures Run(cx, d, n) == d
    decreases n
  {
    if n > 0 {
      StuckStays(cx, d, n - 1);
    }
  }

  lemma RunStuck(cx: Context, c: Conf, m: nat, n: nat)
    requires Stuck(cx, Run(cx, c, m)) && m <= n
    ensures Run(cx, c, n) == Run(cx, c, m)
  {
    RunAdd(cx, c, m, n - m);
    StuckStays(cx, Run(cx, c, m), n - m);
  }

  /** Where a run is stuck after `n` steps, it stopped as the program means with fuel n + 1. */
  lemma StuckMeans(ss: seq<Stmt>, prims: Prims, st: State, n: nat)
    requires Compiles(ss) && Stuck(Loaded(ss, prims), Run(Loaded(ss, prims), At(0, st), n))
    ensures StopsAs(Meaning(prims, ss, st, n + 1), Run(Loaded(ss, prims), At(0, st), n))
  {
    hide Meaning, Loaded, Run, Step, Compiles;
    var cx := Loaded(ss, prims);
    var c0 := At(0, st);
    ProgramSim(ss, prims, st, n + 1);
    var res := Meaning(prims, ss, st, n + 1);
    if res.Timeout? {
      var d :| Inside(cx, d) && Reach(cx, c0, d, n + 1);
      var k: nat :| k >= n + 1 && Run(cx, c0, k) == d;
      RunStuck(cx, c0, n, k);
      assert false;
    } else {
      var d :| StopsAs(res, d) && Reach(cx, c0, d);
      var k: nat :| k >= 0 && Run(cx, c0, k) == d;
      if k <= n {
        RunStuck(cx, c0, k, n);
      } else {
        RunStuck(cx, c0, n, k);
      }
    }
  }

  /** The machine stops in a configuration exactly when the program, given enough fuel, ends that way. So
      program and bytecode return the same values, raise the same exceptions, or both run forever. */
  lemma ProgramCorrect(ss: seq<Stmt>, prims: Prims, st: State, d: Conf)
    requires Compiles(ss) && !d.At?
    ensures Reach(Loaded(ss, prims), At(0, st), d) <==> exists fuel: nat :: StopsAs(Meaning(prims, ss, st, fuel), d)
  {
    hide Meaning, Loaded, Run, Compiles;
    var cx := Loaded(ss, prims);
    var c0 := At(0, st);
    if Reach(cx, c0, d) {
      var n: nat :| n >= 0 && Run(cx, c0, n) == d;
      StuckMeans(ss, prims, st, n);
    }
    if exists fuel: nat :: StopsAs(Meaning(prims, ss, st, fuel), d) {
      var fuel: nat :| StopsAs(Meaning(prims, ss, st, fuel), d);
      ProgramSim(ss, prims, st, fuel);
      var e :| StopsAs(Meaning(prims, ss, st, fuel), e) && Reach(cx, c0, e);
      assert e == d;
    }
  }

  /** In every run the program counter stays inside the code until the program ends: every jump, patched or
      merged, lands on an instruction. */
  lemma ProgramSafe(ss: seq<Stmt>, prims: Prims, st: State, n: nat)
    requires Compiles(ss)
    ensures var d := Run(Loaded(ss, prims), At(0, st), n); d.At? ==> Inside(Loaded(ss, prims), d)
  {
    hide Meaning, Loaded, Run, Compiles;
    var d := Run(Loaded(ss, prims), At(0, st), n);
    if Stuck(Loaded(ss, prims), d) {
      StuckMeans(ss, prims, st, n);
    }
  }

  /** A compile error is reported exactly for a stray `break` or `continue`. */
  lemma ErrorIffStray(ss: seq<Stmt>)
    requires Fits(CompProgram(ss))
    ensures CompProgram(ss).ok <==> ClosedAll(ss, false)
  {
    hide CompAll, ClosedAll, Stmts;
    StartsLegal();
    ReportsAll(ss, START);
    AddAppends(SetStackSize(CompAll(ss, START), 2), Ins(RETURN, 0xFF));
  }
}
