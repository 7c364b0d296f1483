/** The code of a statement does what the statement means: it falls out at its end, jumps to where its
    loop ends or continues, returns, raises, or keeps running for as long as the loops do. */
module StmtSim {
  import opened Bytecode
  import opened FuncState
  import opened Source
  import opened CodeGen
  import opened Peephole
  import opened Simulation
  import opened Layout
  import opened StmtGen
  import opened StmtLay
  import opened ExprSim

  /** An instruction once the jumps in the lists of `fs'` that are not in those of `fs` are resolved. */
  function Resolved(fs: FState, fs': FState, j: int, brk: int, cont: int): Instr
    requires 0 <= j < |fs'.code| && |fs.breaks| <= |fs'.breaks| && |fs.conts| <= |fs'.conts|
  {
    if j in fs'.breaks[|fs.breaks|..] then Instr(fs'.code[j].op, 0, brk - j - 1, 0, 0)
    else if j in fs'.conts[|fs.conts|..] then Instr(fs'.code[j].op, 0, cont - j - 1, 0, 0)
    else fs'.code[j]
  }

  /** The final code is what was emitted from `fs` to `fs'`, its breaks going to `brk`, its continues to `cont`. */
  ghost predicate AgreeS(cx: Context, fs: FState, fs': FState, brk: int, cont: int) {
    && |fs.breaks| <= |fs'.breaks| && |fs.conts| <= |fs'.conts|
    && |fs'.code| <= |cx.code| && fs'.lits <= cx.lits
    && forall j :: |fs.code| <= j < |fs'.code| ==> cx.code[j] == Resolved(fs, fs', j, brk, cont)
  }

  lemma AgreeSplitS(cx: Context, a: FState, b: FState, c: FState, brk: int, cont: int)
    requires Legal(a) && Keeps(a, b) && Keeps(b, c) && AgreeS(cx, a, c, brk, cont)
    ensures AgreeS(cx, a, b, brk, cont) && AgreeS(cx, b, c, brk, cont)
  {
    hide InScope;
    forall j | |a.code| <= j < |b.code| ensures cx.code[j] == Resolved(a, b, j, brk, cont) {
      Earlier(a, b, c, j, a.breaks, b.breaks, c.breaks);
      Earlier(a, b, c, j, a.conts, b.conts, c.conts);
    }
    forall j | |b.code| <= j < |c.code| ensures cx.code[j] == Resolved(b, c, j, brk, cont) {
      Later(a, b, c, j, a.breaks, b.breaks, c.breaks);
      Later(a, b, c, j, a.conts, b.conts, c.conts);
    }
  }

  lemma Earlier(a: FState, b: FState, c: FState, j: int, x: seq<int>, y: seq<int>, z: seq<int>)
    requires x <= y <= z && Jumps(z[|y|..], b, c) && j < |b.code|
    ensures j in z[|x|..] <==> j in y[|x|..]
  {
    assert z[|x|..] == y[|x|..] + z[|y|..];
  }

  lemma Later(a: FState, b: FState, c: FState, j: int, x: seq<int>, y: seq<int>, z: seq<int>)
    requires x <= y <= z && Jumps(y[|x|..], a, b) && |b.code| <= j
    ensures j in z[|x|..] <==> j in z[|y|..]
  {
    assert z[|x|..] == y[|x|..] + z[|y|..];
  }

  /** Code without unresolved jumps is final as emitted. */
  lemma AgreePlain(cx: Context, fs: FState, fs': FState, brk: int, cont: int)
    requires AgreeS(cx, fs, fs', brk, cont) && fs'.breaks == fs.breaks && fs'.conts == fs.conts
    ensures forall j :: |fs.code| <= j < |fs'.code| ==> cx.code[j] == fs'.code[j]
  {
  }

  // --- outcomes of running a statement

  ghost predicate LandsAt(cx: Context, c0: Conf, pc: int, st: State, env: seq<Val>, w: World) {
    Reach(cx, c0, At(pc, st)) && st.w == w && Locals(st.regs, env)
  }

  ghost predicate Lands(cx: Context, c0: Conf, pc: int, env: seq<Val>, w: World) {
    exists st :: LandsAt(cx, c0, pc, st, env, w)
  }

  /** After at least `m` steps the machine is still inside the code. */
  ghost predicate Running(cx: Context, c0: Conf, m: nat) {
    exists d :: Inside(cx, d) && Reach(cx, c0, d, m)
  }

  ghost predicate Inside(cx: Context, d: Conf) {
    d.At? && 0 <= d.pc < |cx.code|
  }

  ghost predicate Flows(cx: Context, c0: Conf, res: Flow, end: int, brk: int, cont: int, m: nat) {
    match res
    case Fell(env, w) => Lands(cx, c0, end, env, w)
    case Broke(env, w) => Lands(cx, c0, brk, env, w)
    case Continued(env, w) => Lands(cx, c0, cont, env, w)
    case Left(v, w) => Reach(cx, c0, Returned(v, w))
    case Thrown(w) => Reach(cx, c0, Raised(w))
    case Timeout => Running(cx, c0, m)
  }

  lemma LandsFrom(cx: Context, c0: Conf, c1: Conf, pc: int, env: seq<Val>, w: World)
    requires Reach(cx, c0, c1) && Lands(cx, c1, pc, env, w)
    ensures Lands(cx, c0, pc, env, w)
  {
    var st :| LandsAt(cx, c1, pc, st, env, w);
    ReachTrans(cx, c0, c1, At(pc, st), 0, 0);
    assert LandsAt(cx, c0, pc, st, env, w);
  }

  lemma FlowsFrom(cx: Context, c0: Conf, c1: Conf, res: Flow, end: int, brk: int, cont: int, k: nat, m: nat)
    requires Reach(cx, c0, c1, k) && Flows(cx, c1, res, end, brk, cont, m)
    ensures Flows(cx, c0, res, end, brk, cont, k + m)
  {
    ReachWeaken(cx, c0, c1, k, 0);
    match res {
      case Fell(env, w) => LandsFrom(cx, c0, c1, end, env, w);
      case Broke(env, w) => LandsFrom(cx, c0, c1, brk, env, w);
      case Continued(env, w) => LandsFrom(cx, c0, c1, cont, env, w);
      case Left(v, w) => ReachTrans(cx, c0, c1, Returned(v, w), 0, 0);
      case Thrown(w) => ReachTrans(cx, c0, c1, Raised(w), 0, 0);
      case Timeout =>
        var d :| Inside(cx, d) && Reach(cx, c1, d, m);
        ReachTrans(cx, c0, c1, d, k, m);
    }
  }

  /** Less is asked of the number of steps. */
  lemma FlowsWeaken(cx: Context, c0: Conf, res: Flow, end: int, brk: int, cont: int, k: nat, m: nat)
    requires Flows(cx, c0, res, end, brk, cont, k) && m <= k
    ensures Flows(cx, c0, res, end, brk, cont, m)
  {
    if res.Timeout? {
      var d :| Inside(cx, d) && Reach(cx, c0, d, k);
      ReachWeaken(cx, c0, d, k, m);
    }
  }

  /** Variables that go out of scope stay where they are. */
  lemma LandsCut(cx: Context, c0: Conf, pc: int, env: seq<Val>, w: World, n: nat)
    requires Lands(cx, c0, pc, env, w)
    ensures Lands(cx, c0, pc, Cut(env, n), w)
  {
    var st :| LandsAt(cx, c0, pc, st, env, w);
    assert LandsAt(cx, c0, pc, st, Cut(env, n), w);
  }

  lemma FlowsScoped(cx: Context, c0: Conf, res: Flow, end: int, brk: int, cont: int, m: nat, n: nat)
    requires Flows(cx, c0, res, end, brk, cont, m)
    ensures Flows(cx, c0, Scoped(res, n), end, brk, cont, m)
  {
    if res.Fell? {
      LandsCut(cx, c0, end, res.env, res.w, n);
    }
  }

  // --- expressions in statements

  ghost predicate Enters(fs: FState, st: State, env: seq<Val>) {
    Boundary(fs) && Legal(fs) && Ready(fs) && |env| == |fs.vlocals| && Locals(st.regs, env)
  }

  /** An expression at the beginning of a statement. */
  lemma SimExpr(cx: Context, e: Expr, fs: FState, env: seq<Val>, st: State) returns (o1: Outcome)
    requires Enters(fs, st, env) && Fine(e, fs.vlocals) && Fits(CompE(e, fs))
    requires Agree(cx, CompE(e, fs), |fs.code|)
    ensures var fs1 := CompE(e, fs); var r1 := Eval(cx.prims, e, fs.vlocals, env, st.w);
      && Arrive(cx, fs1, At(|fs.code|, st), o1) && Yields(Ok(st), o1, r1, Top(fs1), |fs.vlocals|, |fs.vlocals|)
  {
    hide CompE, Arrive, Effect, Eval, InScope, DestSafe, Agree, WellFormed, Safe, Fits, Yields;
    BoundaryStart(fs);
    var c0 := At(|fs.code|, st);
    ReachRefl(cx, c0);
    ArriveClosed(cx, fs, c0, st);
    var o := Ok(st);
    o1 := SimE(cx, e, fs, fs.vlocals, env, c0, o);
  }

  /** The final code up to a conditional jump, which skips `d` instructions. */
  ghost predicate TestAt(cx: Context, fs: FState, jz: FState, d: int) {
    && |jz.code| > 0 && jz.lits <= cx.lits
    && PatchedAt(cx, Pos(jz), Last(jz.code), d)
    && forall k :: |fs.code| <= k < Pos(jz) ==> cx.code[k] == jz.code[k]
  }

  /** Patching an earlier test leaves the rest as it was. */
  lemma AgreeTest(cx: Context, fs: FState, jz: FState, u: FState, d: int, brk: int, cont: int)
    requires Legal(jz) && |fs.code| <= Pos(jz) && Keeps(jz, u) && fs.breaks == jz.breaks && fs.conts == jz.conts
    requires AgreeS(cx, fs, Patch(u, Pos(jz), d), brk, cont)
    ensures TestAt(cx, fs, jz, d) && AgreeS(cx, jz, u, brk, cont)
  {
    hide InScope;
    var v := Patch(u, Pos(jz), d);
    forall j | |fs.code| <= j < |u.code| ensures cx.code[j] == if j
      == Pos(jz) then jz.code[j].(a1 := d) else Resolved(jz, u, j, brk, cont) {
      assert cx.code[j] == Resolved(fs, v, j, brk, cont);
    }
    forall k | |fs.code| <= k < Pos(jz) ensures cx.code[k] == jz.code[k] {
      assert k !in u.breaks[|jz.breaks|..] && k !in u.conts[|jz.conts|..];
    }
  }

  lemma TestAgrees(cx: Context, fs: FState, fs1: FState, jz: FState, d: int, scope: seq<Slot>)
    requires TestAt(cx, fs, jz, d) && Laid(fs1, jz, scope) && Frontier(fs1) <= Pos(jz)
    ensures Agree(cx, fs1, |fs.code|)
  {
  }

  /** Where a condition leads. */
  lemma SimTestS(cx: Context, e: Expr, a1: int, d: int, fs: FState, env: seq<Val>, st: State) returns (st': State)
    requires Enters(fs, st, env) && Fine(e, fs.vlocals) && Fits(CompE(e, fs))
    requires var fs1 := CompE(e, fs);
      && 0 <= Top(fs1) < |fs1.vlocals|
      && var jz := Add(Pop(fs1), Ins(JZ, Top(fs1), a1));
      && TestAt(cx, fs, jz, d) && Laid(fs1, jz, fs.vlocals) && Frontier(fs1) <= Pos(jz)
    ensures var n := |Add(Pop(CompE(e, fs)), Ins(JZ, Top(CompE(e, fs)), a1)).code|; var c0 := At(|fs.code|, st);
      match Eval(cx.prims, e, fs.vlocals, env, st.w)
      case EThrow(w) => Reach(cx, c0, Raised(w))
      case EOk(a, env1, w1) =>
        Reach(cx, c0, At(if IsFalse(Deref(a, env1)) then n + d else n, st'), 1) && st'.w == w1 && Locals(st'.regs, env1)
  {
    hide CompE, Arrive, Effect, Eval, Agree, WellFormed, Safe, Fits, Laid, Add, TestAt, InScope, DestSafe, Open,
      Frontier;
    var fs1 := CompE(e, fs);
    var jz := Add(Pop(fs1), Ins(JZ, Top(fs1), a1));
    TestAgrees(cx, fs, fs1, jz, d, fs.vlocals);
    var o1 := SimExpr(cx, e, fs, env, st);
    LayExpr(e, fs);
    BoundaryStart(fs);
    var r1 := Eval(cx.prims, e, fs.vlocals, env, st.w);
    var p := TestPopped(fs1, fs, a1);
    SameCodeArrive(cx, fs1, p, At(|fs.code|, st), o1);
    CmpTop(e, fs);
    TestRest(cx, fs, p, jz, Top(fs1), a1, d);
    var regs := TestArrive(cx, p, Top(fs1), a1, d, At(|fs.code|, st), o1);
    st' := State(regs, if o1.Ok? then o1.st.w else 0);
    if r1.EOk? {
      OperandValue(r1.o, o1.st.regs, Top(fs1), |fs.vlocals|, r1.env);
    }
  }

  lemma TestRest(cx: Context, fs: FState, p: FState, jz: FState, r: int, a1: int, d: int)
    requires jz == Add(p, Ins(JZ, r, a1)) && TestAt(cx, fs, jz, d) && |fs.code| <= Frontier(p)
    ensures var j := Pos(jz);
      j < |cx.code| && cx.code[j] == jz.code[j].(a1 := d) && forall k :: Frontier(p) <= k < j ==>
        cx.code[k] == jz.code[k]
  {
  }

  lemma TestPopped(fs1: FState, fs: FState, a1: int) returns (p: FState)
    requires Start(fs, fs.vlocals) && One(fs, fs1) && Start(fs1, fs.vlocals) && Fits(fs1)
    ensures p == Pop(fs1) && p.code == fs1.code && p.opt == fs1.opt && LastIsCmp(p) == LastIsCmp(fs1)
      && Frontier(p) == Frontier(fs1)
    ensures 0 <= Top(fs1) < 255 && (LastIsCmp(fs1) ==> 0 <= Last(fs1.code).a1 < 0xFF)
    ensures Top(fs1) < |fs.vlocals| || Top(fs1) == |fs.vlocals|
  {
    PopOne(fs, fs1);
    TargetRange(fs, fs1, fs.vlocals);
    p := Pop(fs1);
  }

  /** A comparison pending at the end of a condition wrote the register that is tested. */
  lemma CmpTop(e: Expr, fs: FState)
    requires Boundary(fs) && Ready(fs) && Fine(e, fs.vlocals) && Fits(CompE(e, fs))
    ensures LastIsCmp(CompE(e, fs)) ==> Last(CompE(e, fs).code).a0 == Top(CompE(e, fs)) == |fs.vlocals|
  {
    hide CompE, WellFormed, Safe, InScope, DestSafe, Laid;
    BoundaryStart(fs);
    if LastIsCmp(CompE(e, fs)) {
      LayE(e, fs, fs.vlocals);
      TestsCmp(e, fs, fs.vlocals);
    }
  }

  // --- simple statements

  /** All of `fs1` is final: its pending instruction runs. */
  lemma Flush(cx: Context, fs: FState, fs1: FState, c0: Conf, o: Outcome)
    requires Arrive(cx, fs1, c0, o) && |fs.code| <= Frontier(fs1) && |fs1.code| <= |cx.code|
    requires forall j :: |fs.code| <= j < |fs1.code| ==> cx.code[j] == fs1.code[j]
    ensures o.Raise? ==> Reach(cx, c0, Raised(o.w))
    ensures o.Ok? ==> Reach(cx, c0, At(|fs1.code|, o.st))
  {
    hide Effect;
    RunPending(cx, fs1, c0, o);
  }

  /** Discarding a result changes at most the register that held it. */
  lemma SimDiscard(cx: Context, fs1: FState, fs: FState, c0: Conf, o1: Outcome) returns (o: Outcome)
    requires Start(fs, fs.vlocals) && One(fs, fs1) && Start(fs1, fs.vlocals) && Fits(fs1) && Arrive(cx, fs1, c0, o1)
    ensures 0 <= Top(fs1) < |fs1.vlocals| && Arrive(cx, Discard(fs1), c0, o)
    ensures o1.Raise? ==> o == o1
    ensures o1.Ok? ==> o.Ok? && o.st.w == o1.st.w && forall r :: 0 <= r < |fs.vlocals| ==>
      Rd(o.st.regs, r) == Rd(o1.st.regs, r)
  {
    hide Effect, Pop;
    PopOne(fs, fs1);
    var fs' := Discard(fs1);
    if fs'.code == fs1.code {
      o := o1;
      SameCodeArrive(cx, fs1, fs', c0, o1);
    } else if o1.Raise? && Reach(cx, c0, Raised(o1.w)) {
      o := o1;
    } else {
      var st :| ArriveVia(cx, fs1, c0, o1, st);
      o := Effect(cx, Last(fs'.code), st);
      NoStore(cx, Last(fs1.code), st, |fs.vlocals|);
      assert ArriveVia(cx, fs', c0, o, st);
    }
  }

  lemma NoStore(cx: Context, i: Instr, st: State, nl: nat)
    requires i.op in {SET, CALL} && nl <= i.a0
    ensures var a, b := Effect(cx, i.(a0 := NO_TARGET), st), Effect(cx, i, st);
      if b.Raise? then a == b
      else a.Ok? && a.st.w == b.st.w && forall r :: 0 <= r < nl ==> Rd(a.st.regs, r) == Rd(b.st.regs, r)
  {
  }

  lemma SimExprStmt(cx: Context, e: Expr, fs: FState, env: seq<Val>, st: State, brk: int, cont: int, fuel: nat)
    requires Enters(fs, st, env) && Fine(e, fs.vlocals) && Fits(CompE(e, fs))
    requires var fs' := ExprEnd(CompE(e, fs), fs); AgreeS(cx, fs, fs', brk, cont)
    ensures Flows(cx, At(|fs.code|, st), Exec(cx.prims, ExprStmt(e), fs.vlocals, env, st.w, fuel),
      |ExprEnd(CompE(e, fs), fs).code|, brk, cont, fuel)
  {
    hide CompE, Arrive, Effect, Eval, InScope, DestSafe, Agree, WellFormed, Safe, Fits, AgreeS;
    var fs1 := CompE(e, fs);
    var fs' := ExprEnd(fs1, fs);
    var c0 := At(|fs.code|, st);
    LayExpr(e, fs);
    BoundaryStart(fs);
    DiscardAgrees(cx, fs1, fs, brk, cont);
    var o1 := SimExpr(cx, e, fs, env, st);
    var o := SimDiscard(cx, fs1, fs, c0, o1);
    Flush(cx, fs, fs', c0, o);
    if o.Ok? {
      assert LandsAt(cx, c0, |fs'.code|, o.st, Eval(cx.prims, e, fs.vlocals, env, st.w).env, o.st.w);
    }
  }

  lemma DiscardAgrees(cx: Context, fs1: FState, fs: FState, brk: int, cont: int)
    requires Boundary(fs) && Legal(fs) && One(fs, fs1) && Laid(fs, fs1, fs.vlocals) && Start(fs1, fs.vlocals)
    requires AgreeS(cx, fs, ExprEnd(fs1, fs), brk, cont)
    ensures Agree(cx, fs1, |fs.code|) && |fs.code| <= Frontier(ExprEnd(fs1, fs))
    ensures var fs' := ExprEnd(fs1, fs);
      |fs'.code| <= |cx.code| && forall j :: |fs.code| <= j < |fs'.code| ==> cx.code[j] == fs'.code[j]
  {
    PopOne(fs, fs1);
    AgreePlain(cx, fs, ExprEnd(fs1, fs), brk, cont);
    LaidAppends(fs, fs1, fs.vlocals);
  }

  /** A declared variable starts with null, or with its initialiser. */
  lemma SimVarDecl(cx: Context, x: string, init: Option<Expr>, fs: FState, env: seq<Val>, st: State, brk: int,
      cont: int, fuel: nat)
    requires Enters(fs, st, env) && Admissible(VarDecl(x, init), fs.vlocals) && Fits(CompBody(VarDecl(x, init), fs))
    requires AgreeS(cx, fs, CompBody(VarDecl(x, init), fs), brk, cont)
    ensures Flows(cx, At(|fs.code|, st), Exec(cx.prims, VarDecl(x, init), fs.vlocals, env, st.w, fuel),
      |CompBody(VarDecl(x, init), fs).code|, brk, cont, fuel)
  {
    hide CompE, Arrive, Effect, Eval, InScope, DestSafe, Fine, Fits, AgreeS, DeclMove, Result, DeclEnd;
    if init.None? {
      BoundaryStart(fs);
      DeclRoom(x, Result(fs, LOADNULLS, 1), fs);
      SimDeclNull(cx, x, fs, env, st, brk, cont);
    } else {
      SimDeclInit(cx, x, init.value, fs, env, st, brk, cont, fuel);
    }
  }

  lemma DeclAgrees(cx: Context, x: string, fs2: FState, fs: FState, brk: int, cont: int)
    requires Boundary(fs) && Legal(fs) && One(fs, fs2) && AgreeS(cx, fs, DeclEnd(x, fs2, fs), brk, cont)
    ensures |fs2.code| <= |cx.code| && fs2.lits <= cx.lits && forall j :: |fs.code| <= j < |fs2.code| ==>
      cx.code[j] == fs2.code[j]
    ensures |DeclEnd(x, fs2, fs).code| == |fs2.code|
    ensures Agree(cx, fs2, |fs.code|)
  {
    PopOne(fs, fs2);
    AgreePlain(cx, fs, DeclEnd(x, fs2, fs), brk, cont);
  }

  lemma Declared(regs: Regs, env: seq<Val>, v: Val)
    requires Rd(regs, |env|) == v && forall r :: 0 <= r < |env| ==> Rd(regs, r) == env[r]
    ensures Locals(regs, env + [v])
  {
  }

  lemma SimDeclNull(cx: Context, x: string, fs: FState, env: seq<Val>, st: State, brk: int, cont: int)
    requires Enters(fs, st, env)
    requires var fs2 := Result(fs, LOADNULLS, 1); Fits(fs2) && AgreeS(cx, fs, DeclEnd(x, fs2, fs), brk, cont)
    ensures Lands(cx, At(|fs.code|, st), |DeclEnd(x, Result(fs, LOADNULLS, 1), fs).code|, env + [Null], st.w)
  {
    hide Arrive, Effect, Eval, InScope, DestSafe, AgreeS, Add, Fuse, Result, Fits, Agree;
    var fs2 := Result(fs, LOADNULLS, 1);
    var c0 := At(|fs.code|, st);
    BoundaryStart(fs);
    DeclAgrees(cx, x, fs2, fs, brk, cont);
    ReachRefl(cx, c0);
    ArriveClosed(cx, fs, c0, st);
    var o := SimLoad(cx, LOADNULLS, 1, Null, fs, fs.vlocals, env, c0, Ok(st));
    LayResult(fs, LOADNULLS, 1, 0, 0, fs.vlocals);
    LaidAppends(fs, fs2, fs.vlocals);
    Flush(cx, fs, fs2, c0, o);
    EvalConst(cx.prims, Null, fs.vlocals, env, Ok(st));
    Declared(o.st.regs, env, Null);
    assert LandsAt(cx, c0, |fs2.code|, o.st, env + [Null], st.w);
  }

  lemma SimDeclInit(cx: Context, x: string, e: Expr, fs: FState, env: seq<Val>, st: State, brk: int, cont: int,
      fuel: nat)
    requires Enters(fs, st, env) && Fine(e, fs.vlocals)
    requires var fs2 := DeclMove(CompE(e, fs), fs);
      Fits(DeclEnd(x, fs2, fs)) && AgreeS(cx, fs, DeclEnd(x, fs2, fs), brk, cont)
    ensures Flows(cx, At(|fs.code|, st), Exec(cx.prims, VarDecl(x, Some(e)), fs.vlocals, env, st.w, fuel),
      |DeclEnd(x, DeclMove(CompE(e, fs), fs), fs).code|, brk, cont, fuel)
  {
    hide CompE, Arrive, Effect, Eval, InScope, DestSafe, AgreeS, Add, Fuse, DeclMove, DeclEnd, Fits, Agree, Fine,
      Boundary;
    var fs1 := CompE(e, fs);
    var fs2 := DeclMove(fs1, fs);
    var c0 := At(|fs.code|, st);
    DeclRoom(x, fs2, fs);
    MoveRoom(fs1, fs);
    DeclAgrees(cx, x, fs2, fs, brk, cont);
    LayExpr(e, fs);
    LayDeclMove(fs1, fs);
    BoundaryStart(fs);
    LaidTrans(fs, fs1, fs2, fs.vlocals);
    AgreeSplit(cx, fs, fs1, fs2, fs.vlocals);
    var o1 := SimExpr(cx, e, fs, env, st);
    var r1 := Eval(cx.prims, e, fs.vlocals, env, st.w);
    var o := SimDeclMove(cx, fs1, fs, env, c0, st, o1, r1);
    LaidAppends(fs, fs2, fs.vlocals);
    Flush(cx, fs, fs2, c0, o);
    if r1.EOk? {
      Declared(o.st.regs, r1.env, Deref(r1.o, r1.env));
      assert LandsAt(cx, c0, |fs2.code|, o.st, r1.env + [Deref(r1.o, r1.env)], r1.w);
    }
  }

  lemma SimDeclMove(cx: Context, fs1: FState, fs: FState, env: seq<Val>, c0: Conf, st: State, o1: Outcome,
      r1: EvalResult) returns (o: Outcome)
    requires Enters(fs, st, env) && One(fs, fs1) && Start(fs1, fs.vlocals) && Fits(DeclMove(fs1, fs))
      && Arrive(cx, fs1, c0, o1)
    requires Agree(cx, DeclMove(fs1, fs), Frontier(fs1)) && Laid(fs, fs1, fs.vlocals)
    requires Yields(Ok(st), o1, r1, Top(fs1), |fs.vlocals|, |fs.vlocals|) && (r1.EOk? ==> |r1.env| == |env|)
    ensures Arrive(cx, DeclMove(fs1, fs), c0, o)
    ensures match r1
      case EThrow(w) => o == Raise(w)
      case EOk(a, env1, w) => o.Ok? && o.st.w == w && Rd(o.st.regs, |env|) == Deref(a, env1) && Locals(o.st.regs, env1)
  {
    hide Arrive, Effect, Agree, Add, Fuse, FuseLast, InScope, DestSafe, Laid;
    var n := |fs.vlocals|;
    PopOne(fs, fs1);
    BoundaryStart(fs);
    TargetRange(fs, fs1, fs.vlocals);
    LayPop(fs, fs1, fs.vlocals);
    var dest := PushTemp(Pop(fs1));
    SameCodeArrive(cx, fs1, dest, c0, o1);
    MoveRoom(fs1, fs);
    DestStart(fs1, fs);
    if r1.EOk? {
      OperandValue(r1.o, o1.st.regs, Top(fs1), n, r1.env);
    }
    if n == Top(fs1) {
      o := o1;
    } else {
      o := SimMove(cx, dest, n, Top(fs1), fs.vlocals, c0, o1);
    }
  }

  lemma DestStart(fs1: FState, fs: FState)
    requires Start(fs, fs.vlocals) && One(fs, fs1) && Start(fs1, fs.vlocals) && Fits(DeclMove(fs1, fs))
    ensures 0 <= Top(fs1) < |fs1.vlocals| && |fs.vlocals| < 255
    ensures var dest := PushTemp(Pop(fs1));
      Start(dest, fs.vlocals) && Top(dest) == |fs.vlocals| && Frontier(dest) == Frontier(fs1)
  {
    PopOne(fs, fs1);
  }

  /** A jump waits for its loop to end. */
  lemma SimJump(cx: Context, isBreak: bool, fs: FState, env: seq<Val>, st: State, brk: int, cont: int)
    requires Enters(fs, st, env) && AgreeS(cx, fs, Jump(fs, isBreak), brk, cont)
    ensures Lands(cx, At(|fs.code|, st), if isBreak then brk else cont, env, st.w)
  {
    hide Effect, InScope;
    LayJump(fs, isBreak);
    var j := |fs.code|;
    var c0 := At(j, st);
    assert cx.code[j] == Resolved(fs, Jump(fs, isBreak), j, brk, cont);
    ReachStep(cx, c0);
    ReachWeaken(cx, c0, Step(cx, c0), 1, 0);
    assert LandsAt(cx, c0, if isBreak then brk else cont, st, env, st.w);
  }

  lemma SimReturn(cx: Context, r: Option<Expr>, fs: FState, env: seq<Val>, st: State, brk: int, cont: int, fuel: nat)
    requires Enters(fs, st, env) && Admissible(Return(r), fs.vlocals) && Fits(CompBody(Return(r), fs))
    requires AgreeS(cx, fs, CompBody(Return(r), fs), brk, cont)
    ensures Flows(cx, At(|fs.code|, st), Exec(cx.prims, Return(r), fs.vlocals, env, st.w, fuel),
      |CompBody(Return(r), fs).code|, brk, cont, fuel)
  {
    hide CompE, Arrive, Effect, Eval, InScope, DestSafe, Fine, Fits, AgreeS, ReturnEnd, ReturnNull;
    if r.None? {
      SimReturnNull(cx, fs, env, st, brk, cont);
    } else {
      SimReturnValue(cx, r.value, fs, env, st, brk, cont, fuel);
    }
  }

  lemma SimReturnNull(cx: Context, fs: FState, env: seq<Val>, st: State, brk: int, cont: int)
    requires Enters(fs, st, env) && AgreeS(cx, fs, ReturnNull(fs), brk, cont)
    ensures Reach(cx, At(|fs.code|, st), Returned(Null, st.w))
  {
    var i := Ins(RETURN, 0xFF, 0, |fs.vlocals|);
    AddAppends(fs, i);
    AgreePlain(cx, fs, ReturnNull(fs), brk, cont);
    var c0 := At(|fs.code|, st);
    ReachStep(cx, c0);
    ReachWeaken(cx, c0, Step(cx, c0), 1, 0);
  }

  lemma SimReturnValue(cx: Context, e: Expr, fs: FState, env: seq<Val>, st: State, brk: int, cont: int, fuel: nat)
    requires Enters(fs, st, env) && Fine(e, fs.vlocals)
    requires Fits(ReturnEnd(CompE(e, fs), fs)) && AgreeS(cx, fs, ReturnEnd(CompE(e, fs), fs), brk, cont)
    ensures Flows(cx, At(|fs.code|, st), Exec(cx.prims, Return(Some(e)), fs.vlocals, env, st.w, fuel),
      |ReturnEnd(CompE(e, fs), fs).code|, brk, cont, fuel)
  {
    hide CompE, Arrive, Effect, Eval, InScope, DestSafe, AgreeS, Add, Fuse, Fits, Agree, Fine, Boundary, ReturnEnd,
      Laid;
    var fs1 := CompE(e, fs);
    var c0 := At(|fs.code|, st);
    ReturnRoom(fs1, fs);
    LayExpr(e, fs);
    ReturnAgrees(cx, fs1, fs, brk, cont);
    var o1 := SimExpr(cx, e, fs, env, st);
    Flush(cx, fs, fs1, c0, o1);
    BoundaryStart(fs);
    var r1 := Eval(cx.prims, e, fs.vlocals, env, st.w);
    if r1.EOk? {
      OperandValue(r1.o, o1.st.regs, Top(fs1), |fs.vlocals|, r1.env);
      var c := At(|fs1.code|, o1.st);
      ReachStep(cx, c);
      assert Step(cx, c) == Returned(Deref(r1.o, r1.env), r1.w);
      ReachTrans(cx, c0, c, Step(cx, c), 0, 1);
      ReachWeaken(cx, c0, Step(cx, c), 1, 0);
    }
  }

  lemma ReturnAgrees(cx: Context, fs1: FState, fs: FState, brk: int, cont: int)
    requires Boundary(fs) && Legal(fs) && One(fs, fs1) && Laid(fs, fs1, fs.vlocals)
      && AgreeS(cx, fs, ReturnEnd(fs1, fs), brk, cont)
    ensures Agree(cx, fs1, |fs.code|) && |fs1.code| < |cx.code|
    ensures forall j :: |fs.code| <= j < |fs1.code| ==> cx.code[j] == fs1.code[j]
    ensures cx.code[|fs1.code|] == Instr(RETURN, 1, Top(fs1), Byte(|fs.vlocals|), 0)
  {
    hide Fuse, FuseLast;
    PopOne(fs, fs1);
    AddAppends(Pop(fs1), Ins(RETURN, 1, Top(fs1), |Pop(fs1).vlocals|));
    AgreePlain(cx, fs, ReturnEnd(fs1, fs), brk, cont);
  }

  // --- sequences, blocks and branches

  lemma BlockUnfold(pr: Prims, ss: seq<Stmt>, scope: seq<Slot>, env: seq<Val>, w: World, fuel: nat)
    requires |env| == |scope|
    ensures Exec(pr, Block(ss), scope, env, w, fuel) == Scoped(ExecAll(pr, ss, scope, env, w, fuel), |scope|)
  {
    hide ExecAll;
  }

  lemma AllUnfold(pr: Prims, ss: seq<Stmt>, scope: seq<Slot>, env: seq<Val>, w: World, fuel: nat)
    requires |env| == |scope| && ss != []
    ensures var res := Exec(pr, ss[0], scope, env, w, fuel);
      if res.Fell? then
        && |res.env| == |ScopeAfter(ss[0], scope)|
        && ExecAll(pr, ss, scope, env, w, fuel) == ExecAll(pr, ss[1..], ScopeAfter(ss[0], scope), res.env, res.w, fuel)
      else ExecAll(pr, ss, scope, env, w, fuel) == res
  {
    hide Exec;
  }

  lemma SimAll(cx: Context, ss: seq<Stmt>, fs: FState, env: seq<Val>, st: State, brk: int, cont: int, fuel: nat)
    requires Enters(fs, st, env) && AdmissibleAll(ss, fs.vlocals) && Fits(CompAll(ss, fs))
      && AgreeS(cx, fs, CompAll(ss, fs), brk, cont)
    ensures Flows(cx, At(|fs.code|, st), ExecAll(cx.prims, ss, fs.vlocals, env, st.w, fuel), |CompAll(ss, fs).code|,
      brk, cont, fuel)
    decreases fuel, ss, 1
  {
    hide Boundary, Legal, Ready, Admissible, CompS, Fits, AgreeS, Keeps, Locals, InScope, Reach, Exec, ExecAll, Step;
    var c0 := At(|fs.code|, st);
    if ss == [] {
      ReachRefl(cx, c0);
      NothingToRun(cx.prims, fs.vlocals, env, st.w, fuel);
      assert LandsAt(cx, c0, |fs.code|, st, env, st.w);
    } else {
      var fs1 := CompS(ss[0], fs);
      var fs' := CompAll(ss, fs);
      AllParts(cx, ss, fs, brk, cont);
      AllUnfold(cx.prims, ss, fs.vlocals, env, st.w, fuel);
      SimS(cx, ss[0], fs, env, st, brk, cont, fuel);
      var res := Exec(cx.prims, ss[0], fs.vlocals, env, st.w, fuel);
      if res.Fell? {
        var st1 :| LandsAt(cx, c0, |fs1.code|, st1, res.env, res.w);
        SimAll(cx, ss[1..], fs1, res.env, st1, brk, cont, fuel);
        FlowsFrom(cx, c0, At(|fs1.code|, st1), ExecAll(cx.prims, ss, fs.vlocals, env, st.w, fuel), |fs'.code|, brk,
          cont, 0, fuel);
      }
    }
  }

  lemma NothingToRun(pr: Prims, scope: seq<Slot>, env: seq<Val>, w: World, fuel: nat)
    requires |env| == |scope|
    ensures ExecAll(pr, [], scope, env, w, fuel) == Fell(env, w)
  {
  }

  lemma AllParts(cx: Context, ss: seq<Stmt>, fs: FState, brk: int, cont: int)
    requires ss != [] && Boundary(fs) && Legal(fs) && AdmissibleAll(ss, fs.vlocals) && Fits(CompAll(ss, fs))
      && AgreeS(cx, fs, CompAll(ss, fs), brk, cont)
    ensures var fs1 := CompS(ss[0], fs);
      && Legal(fs1) && CompAll(ss, fs) == CompAll(ss[1..], fs1) && Boundary(fs1) && Ready(fs1) && Fits(fs1)
      && fs1.vlocals == ScopeAfter(ss[0], fs.vlocals) && Admissible(ss[0], fs.vlocals)
      && AdmissibleAll(ss[1..], fs1.vlocals)
      && AgreeS(cx, fs, fs1, brk, cont) && AgreeS(cx, fs1, CompAll(ss, fs), brk, cont)
  {
    hide Boundary, Keeps, CompS, AgreeS, Admissible;
    var fs1 := CompS(ss[0], fs);
    StmtsLegal(fs, fs1);
    LayS(ss[0], fs);
    LayAll(ss[1..], fs1);
    AgreeSplitS(cx, fs, fs1, CompAll(ss, fs), brk, cont);
  }

  lemma SimBlock(cx: Context, ss: seq<Stmt>, fs: FState, env: seq<Val>, st: State, brk: int, cont: int, fuel: nat)
    requires Enters(fs, st, env) && AdmissibleAll(ss, fs.vlocals) && Fits(CompAll(ss, fs))
      && AgreeS(cx, fs, CompAll(ss, fs), brk, cont)
    ensures Flows(cx, At(|fs.code|, st), Exec(cx.prims, Block(ss), fs.vlocals, env, st.w, fuel),
      |CompAll(ss, fs).code|, brk, cont, fuel)
    decreases fuel, ss, 2
  {
    hide Boundary, Legal, Ready, AdmissibleAll, CompAll, Fits, AgreeS, Exec, ExecAll, Locals, Flows;
    SimAll(cx, ss, fs, env, st, brk, cont, fuel);
    BlockUnfold(cx.prims, ss, fs.vlocals, env, st.w, fuel);
    FlowsScoped(cx, At(|fs.code|, st), ExecAll(cx.prims, ss, fs.vlocals, env, st.w, fuel), |CompAll(ss, fs).code|, brk,
      cont, fuel, |fs.vlocals|);
  }

  /** Scopes end without code. */
  lemma AgreeScope(cx: Context, fs: FState, u: FState, v: FState, brk: int, cont: int)
    requires AgreeS(cx, fs, v, brk, cont) && v.code == u.code && v.lits == u.lits && v.breaks == u.breaks
      && v.conts == u.conts
    ensures AgreeS(cx, fs, u, brk, cont)
  {
  }

  lemma SimIfBlock(cx: Context, s: Stmt, fs: FState, env: seq<Val>, st: State, brk: int, cont: int, fuel: nat)
    requires Enters(fs, st, env) && Admissible(s, fs.vlocals) && !s.VarDecl? && Fits(IfBlock(s, fs))
      && AgreeS(cx, fs, IfBlock(s, fs), brk, cont)
    ensures Flows(cx, At(|fs.code|, st), Exec(cx.prims, s, fs.vlocals, env, st.w, fuel), |IfBlock(s, fs).code|, brk,
      cont, fuel)
    decreases fuel, s, 4
  {
    hide Boundary, Legal, Ready, CompAll, CompS, Fits, AgreeS, Exec, ExecAll, Locals, Flows, AdmissibleAll;
    if s.Block? {
      IfBlockIs(s.ss, fs);
      AgreeScope(cx, fs, CompAll(s.ss, fs), IfBlock(s, fs), brk, cont);
      SimBlock(cx, s.ss, fs, env, st, brk, cont, fuel);
    } else {
      SimS(cx, s, fs, env, st, brk, cont, fuel);
    }
  }

  lemma IfBlockIs(ss: seq<Stmt>, fs: FState)
    requires Legal(fs)
    ensures IfBlock(Block(ss), fs) == SetStackSize(CompAll(ss, fs), |fs.vlocals|)
      && CompBody(Block(ss), fs) == SetStackSize(CompAll(ss, fs), |fs.vlocals|)
    ensures Fits(IfBlock(Block(ss), fs)) ==> Fits(CompAll(ss, fs))
  {
    hide CompAll;
  }

  lemma IfUnfold(pr: Prims, s: Stmt, scope: seq<Slot>, env: seq<Val>, w: World, fuel: nat)
    requires |env| == |scope| && s.If?
    ensures var r1 := Eval(pr, s.c, scope, env, w); var res := Exec(pr, s, scope, env, w, fuel);
      if r1.EThrow? then res == Thrown(r1.w)
      else if !IsFalse(Deref(r1.o, r1.env)) then res == Scoped(Exec(pr, s.t, scope, r1.env, r1.w, fuel), |scope|)
      else if s.f.Some? then res == Scoped(Exec(pr, s.f.value, scope, r1.env, r1.w, fuel), |scope|)
      else res == Fell(r1.env, r1.w)
  {
    hide Eval;
  }

  /** The states an `if` goes through. */
  datatype IfStates = IfStates(fs1: FState, jz: FState, t': FState, jmp: FState, f': FState)

  /** What the final code says about the pieces of an `if`. */
  ghost predicate IfParts(cx: Context, s: Stmt, fs: FState, b: IfStates, brk: int, cont: int)
    requires Legal(fs) && s.If?
  {
    && Ready(fs) && b.fs1 == CompE(s.c, fs) && b.jz == CondTest(b.fs1, fs) && Legal(b.jz) && b.t' == IfBlock(s.t, b.jz)
    && Fine(s.c, fs.vlocals) && Fits(b.fs1) && Laid(b.fs1, b.jz, fs.vlocals) && Frontier(b.fs1) <= Pos(b.jz)
    && Boundary(b.jz) && b.jz.vlocals == fs.vlocals && Fits(b.t') && AgreeS(cx, b.jz, b.t', brk, cont)
    && TestAt(cx, fs, b.jz, (if s.f.None? then |b.t'.code| else |b.t'.code| + 1) - |b.jz.code|)
    && (s.f.None? ==> |CompBody(s, fs).code| == |b.t'.code|)
    && (s.f.Some? ==> ElseParts(cx, s, fs, b, brk, cont))
  }

  ghost predicate ElseParts(cx: Context, s: Stmt, fs: FState, b: IfStates, brk: int, cont: int)
    requires Legal(fs) && s.If? && s.f.Some?
  {
    && Legal(b.jmp) && Boundary(b.jmp) && b.jmp.vlocals == fs.vlocals && |b.jmp.code| == |b.t'.code| + 1
    && b.f' == IfBlock(s.f.value, b.jmp) && Fits(b.f') && AgreeS(cx, b.jmp, b.f', brk, cont)
    && PatchedAt(cx, |b.t'.code|, Ins(JMP), |b.f'.code| - |b.jmp.code|) && |CompBody(s, fs).code| == |b.f'.code|
  }

  lemma IfPartsHold(cx: Context, s: Stmt, fs: FState, brk: int, cont: int) returns (b: IfStates)
    requires Boundary(fs) && Legal(fs) && s.If? && Admissible(s, fs.vlocals) && Fits(CompBody(s, fs))
      && AgreeS(cx, fs, CompBody(s, fs), brk, cont)
    ensures IfParts(cx, s, fs, b, brk, cont)
  {
    hide Boundary, CompE, CondTest, IfBlock, Keeps, Fine, One, InScope, Laid, Start, Stmts, Fits, Legal, AgreeS,
      TestAt, ElseJump, IfEnd, IfElseEnd, Frontier;
    LegalReady(fs);
    var fs1 := CompE(s.c, fs);
    var jz := CondTest(fs1, fs);
    TestStmts(fs, jz);
    var t' := IfBlock(s.t, jz);
    IfRoom(t', jz, fs1, fs);
    if s.f.None? {
      LayExpr(s.c, fs);
      LayTest(fs1, fs);
      LayIfBlock(s.t, jz);
      IfEndAgrees(cx, t', jz, fs, brk, cont);
      b := IfStates(fs1, jz, t', jz, t');
    } else {
      var jmp := ElseJump(t', jz, fs);
      var f' := IfBlock(s.f.value, jmp);
      IfElseRoom(f', jmp, t', jz, fs);
      LayExpr(s.c, fs);
      LayTest(fs1, fs);
      LayIfBlock(s.t, jz);
      LayElse(t', jz, fs);
      LayIfBlock(s.f.value, jmp);
      StmtsLegal(jz, t');
      IfElseAgrees(cx, f', jmp, t', jz, fs, brk, cont);
      b := IfStates(fs1, jz, t', jmp, f');
    }
  }

  lemma IfEndAgrees(cx: Context, t': FState, jz: FState, fs: FState, brk: int, cont: int)
    requires Boundary(fs) && Legal(fs) && CondPushed(fs, jz) && Keeps(fs, jz) && |fs.code| <= Pos(jz) && Legal(jz)
      && Keeps(jz, t') && Stmts(jz, t')
    requires AgreeS(cx, fs, IfEnd(t', jz, fs), brk, cont)
    ensures TestAt(cx, fs, jz, |t'.code| - |jz.code|) && AgreeS(cx, jz, t', brk, cont)
      && |IfEnd(t', jz, fs).code| == |t'.code|
  {
    hide InScope, Boundary, AgreeS, TestAt, Keeps;
    AgreeTest(cx, fs, jz, t', Pos(t') - Pos(jz), brk, cont);
  }

  lemma IfElseAgrees(cx: Context, f': FState, jmp: FState, t': FState, jz: FState, fs: FState, brk: int, cont: int)
    requires Boundary(fs) && Legal(fs) && CondPushed(fs, jz) && Keeps(fs, jz) && |fs.code| <= Pos(jz) && Legal(jz)
      && Keeps(jz, t') && Stmts(jz, t')
    requires Legal(t') && Keeps(t', jmp) && Stmts(t', jmp) && jmp == t'.(code := t'.code + [Ins(JMP)], opt := true)
    requires Legal(jmp) && Keeps(jmp, f') && Stmts(jmp, f')
    requires AgreeS(cx, fs, IfElseEnd(f', jmp, t', jz, fs), brk, cont)
    ensures TestAt(cx, fs, jz, |t'.code| + 1 - |jz.code|) && AgreeS(cx, jz, t', brk, cont)
      && |IfElseEnd(f', jmp, t', jz, fs).code| == |f'.code|
    ensures PatchedAt(cx, |t'.code|, Ins(JMP), |f'.code| - |jmp.code|) && AgreeS(cx, jmp, f', brk, cont)
  {
    hide InScope, Boundary, AgreeS, TestAt, Keeps;
    var d := Pos(f') - Pos(jmp);
    var v := Patch(f', Pos(jmp), d);
    KeepsTrans(jz, t', jmp);
    KeepsTrans(jz, jmp, f');
    KeepsPatch(jz, f', Pos(jmp), d);
    AgreeTest(cx, fs, jz, v, Pos(t') - Pos(jz) + 1, brk, cont);
    KeepsPatch(t', f', Pos(jmp), d) by {
      KeepsTrans(t', jmp, f');
    }
    AgreeSplitS(cx, jz, t', v, brk, cont);
    JumpAgrees(cx, t', jmp, f', d, brk, cont);
  }

  lemma JumpAgrees(cx: Context, t': FState, jmp: FState, f': FState, d: int, brk: int, cont: int)
    requires Legal(jmp) && jmp == t'.(code := t'.code + [Ins(JMP)], opt := true) && Keeps(jmp, f')
    requires AgreeS(cx, t', Patch(f', Pos(jmp), d), brk, cont)
    ensures PatchedAt(cx, |t'.code|, Ins(JMP), d) && AgreeS(cx, jmp, f', brk, cont)
  {
    hide InScope;
    AgreeTest(cx, t', jmp, f', d, brk, cont);
  }

  lemma LandsJump(cx: Context, c0: Conf, pc: int, i: Instr, d: int, env: seq<Val>, w: World)
    requires Lands(cx, c0, pc, env, w) && i.op == JMP && PatchedAt(cx, pc, i, d)
    ensures Lands(cx, c0, pc + 1 + d, env, w)
  {
    var st :| LandsAt(cx, c0, pc, st, env, w);
    var c := At(pc, st);
    ReachStep(cx, c);
    ReachTrans(cx, c0, c, Step(cx, c), 0, 1);
    ReachWeaken(cx, c0, Step(cx, c), 1, 0);
    assert LandsAt(cx, c0, pc + 1 + d, st, env, w);
  }

  lemma FlowsJump(cx: Context, c0: Conf, res: Flow, pc: int, i: Instr, d: int, brk: int, cont: int, m: nat)
    requires Flows(cx, c0, res, pc, brk, cont, m) && i.op == JMP && PatchedAt(cx, pc, i, d)
    ensures Flows(cx, c0, res, pc + 1 + d, brk, cont, m)
  {
    if res.Fell? {
      LandsJump(cx, c0, pc, i, d, res.env, res.w);
    }
  }

  lemma TestIs(fs1: FState, fs: FState)
    requires One(fs, fs1)
    ensures |fs1.targets| > 0 && 0 <= Top(fs1) < |fs1.vlocals|
      && CondTest(fs1, fs) == Add(Pop(fs1), Ins(JZ, Top(fs1), 0))
  {
    hide Add;
    PopOne(fs, fs1);
  }

  lemma EntersBranch(fs: FState, u: FState, st: State, env: seq<Val>)
    requires Boundary(u) && Legal(u) && u.vlocals == fs.vlocals && |env| == |fs.vlocals| && Locals(st.regs, env)
    ensures Enters(u, st, env)
  {
    BoundaryStart(u);
  }

  lemma SimIf(cx: Context, s: Stmt, fs: FState, env: seq<Val>, st: State, brk: int, cont: int, fuel: nat)
    requires Enters(fs, st, env) && s.If? && Admissible(s, fs.vlocals) && Fits(CompBody(s, fs))
      && AgreeS(cx, fs, CompBody(s, fs), brk, cont)
    ensures Flows(cx, At(|fs.code|, st), Exec(cx.prims, s, fs.vlocals, env, st.w, fuel), |CompBody(s, fs).code|, brk,
      cont, fuel)
    decreases fuel, s, 1
  {
    hide Boundary, CompE, CondTest, CompBody, IfBlock, Fine, Fits, Legal, AgreeS, TestAt, Frontier, Exec, Eval, Reach,
      Locals, PatchedAt, One, Laid, Add, ElseParts;
    var c0 := At(|fs.code|, st);
    var b := IfPartsHold(cx, s, fs, brk, cont);
    IfUnfold(cx.prims, s, fs.vlocals, env, st.w, fuel);
    TestIs(b.fs1, fs);
    var st' := SimTestS(cx, s.c, 0, (if s.f.None? then |b.t'.code| else |b.t'.code| + 1) - |b.jz.code|, fs, env, st);
    var r1 := Eval(cx.prims, s.c, fs.vlocals, env, st.w);
    if r1.EOk? {
      if !IsFalse(Deref(r1.o, r1.env)) {
        EntersBranch(fs, b.jz, st', r1.env);
        SimIfBlock(cx, s.t, b.jz, r1.env, st', brk, cont, fuel);
        SimIfTrue(cx, s, fs, b, c0, At(|b.jz.code|, st'), Exec(cx.prims, s.t, fs.vlocals, r1.env, r1.w, fuel), brk,
          cont, fuel);
      } else if s.f.Some? {
        ElseEnters(cx, s, fs, b, brk, cont);
        EntersBranch(fs, b.jmp, st', r1.env);
        SimIfBlock(cx, s.f.value, b.jmp, r1.env, st', brk, cont, fuel);
        BranchFlows(cx, c0, At(|b.jmp.code|, st'), Exec(cx.prims, s.f.value, fs.vlocals, r1.env, r1.w, fuel),
          |b.f'.code|, brk, cont, fuel, |fs.vlocals|);
      } else {
        ReachWeaken(cx, c0, At(|b.t'.code|, st'), 1, 0);
        assert LandsAt(cx, c0, |b.t'.code|, st', r1.env, r1.w);
      }
    }
  }

  lemma ElseEnters(cx: Context, s: Stmt, fs: FState, b: IfStates, brk: int, cont: int)
    requires Legal(fs) && s.If? && s.f.Some? && ElseParts(cx, s, fs, b, brk, cont)
    ensures Legal(b.jmp) && Boundary(b.jmp) && b.jmp.vlocals == fs.vlocals && |b.jmp.code| == |b.t'.code| + 1
    ensures b.f' == IfBlock(s.f.value, b.jmp) && Fits(b.f') && AgreeS(cx, b.jmp, b.f', brk, cont)
      && |CompBody(s, fs).code| == |b.f'.code|
    ensures PatchedAt(cx, |b.t'.code|, Ins(JMP), |b.f'.code| - |b.jmp.code|)
  {
    hide CompBody, IfBlock, AgreeS, Boundary;
  }

  lemma BranchFlows(cx: Context, c0: Conf, c1: Conf, res: Flow, end: int, brk: int, cont: int, m: nat, n: nat)
    requires Reach(cx, c0, c1, 1) && Flows(cx, c1, res, end, brk, cont, m)
    ensures Flows(cx, c0, Scoped(res, n), end, brk, cont, m)
  {
    hide Reach, Lands, Running;
    FlowsFrom(cx, c0, c1, res, end, brk, cont, 1, m);
    FlowsWeaken(cx, c0, res, end, brk, cont, 1 + m, m);
    FlowsScoped(cx, c0, res, end, brk, cont, m, n);
  }

  lemma SimIfTrue(cx: Context, s: Stmt, fs: FState, b: IfStates, c0: Conf, c1: Conf, res: Flow, brk: int, cont: int,
      fuel: nat)
    requires Legal(fs) && s.If? && IfParts(cx, s, fs, b, brk, cont) && Reach(cx, c0, c1, 1)
      && Flows(cx, c1, res, |b.t'.code|, brk, cont, fuel)
    ensures Flows(cx, c0, Scoped(res, |fs.vlocals|), |CompBody(s, fs).code|, brk, cont, fuel)
  {
    hide CompE, CondTest, CompBody, IfBlock, Fine, Fits, Boundary, AgreeS, TestAt, Reach, Flows, ElseParts, Laid;
    BranchFlows(cx, c0, c1, res, |b.t'.code|, brk, cont, fuel, |fs.vlocals|);
    if s.f.Some? {
      ElseEnters(cx, s, fs, b, brk, cont);
      FlowsJump(cx, c0, Scoped(res, |fs.vlocals|), |b.t'.code|, Ins(JMP), |b.f'.code| - |b.jmp.code|, brk, cont, fuel);
    }
  }

  // --- loops

  /** At the end of a loop its breaks go to the end of its code and its continues to just after `target`. */
  lemma LoopAgrees(cx: Context, back: FState, target: int, fs: FState, brk: int, cont: int)
    requires Legal(fs) && Stmts(fs.(loops := fs.loops + 1), back)
    requires AgreeS(cx, fs, EndLoop(back, |fs.breaks|, |fs.conts|, target, fs), brk, cont)
    ensures AgreeS(cx, fs.(loops := fs.loops + 1), back, |back.code|, target + 1)
    ensures |EndLoop(back, |fs.breaks|, |fs.conts|, target, fs).code| == |back.code|
  {
    hide ResolveConts, ResolveBreaks, Ready, Grown;
    var fs' := EndLoop(back, |fs.breaks|, |fs.conts|, target, fs);
    AgreePlain(cx, fs, fs', brk, cont);
    var c := ResolveConts(back, |back.conts| - |fs.conts|, target);
    var r := ResolveBreaks(c, |c.breaks| - |fs.breaks|);
    assert fs'.code == r.code && c.breaks == back.breaks;
    forall j | |fs.code| <= j < |back.code| ensures cx.code[j]
      == Resolved(fs.(loops := fs.loops + 1), back, j, |back.code|, target + 1) {
      assert cx.code[j] == r.code[j];
    }
  }

  ghost predicate WhileParts(cx: Context, s: Stmt, fs: FState, jz: FState, body: FState, end: int)
    requires Legal(fs) && s.While?
  {
    && Ready(fs) && Fine(s.c, fs.vlocals) && Fits(CompE(s.c, fs)) && |jz.code| > 0
    && jz == CondTest(CompE(s.c, fs), fs).(loops := fs.loops + 1)
    && Laid(CompE(s.c, fs), CondTest(CompE(s.c, fs), fs), fs.vlocals)
    && Frontier(CompE(s.c, fs)) <= Pos(jz)
    && Legal(jz) && Boundary(jz) && jz.vlocals == fs.vlocals && body == CompS(s.b, jz) && Admissible(s.b, fs.vlocals)
    && Fits(body)
    && TestAt(cx, fs, jz, end - |jz.code|) && AgreeS(cx, jz, body, end, |fs.code|)
    && PatchedAt(cx, |body.code|, Ins(JMP), |fs.code| - |body.code| - 1) && end == |body.code| + 1
    && |fs.code| <= Pos(jz)
  }

  lemma WhilePartsHold(cx: Context, s: Stmt, fs: FState, brk: int, cont: int) returns (jz: FState, body: FState)
    requires Boundary(fs) && Legal(fs) && s.While? && Admissible(s, fs.vlocals) && Fits(CompBody(s, fs))
      && AgreeS(cx, fs, CompBody(s, fs), brk, cont)
    ensures WhileParts(cx, s, fs, jz, body, |CompBody(s, fs).code|)
  {
    hide Boundary, CompE, CondTest, CompS, Keeps, Fine, One, InScope, Laid, Start, Stmts, WhileTest, WhileEnd, Fits,
      Legal, AgreeS, TestAt, Frontier, PatchedAt, CondPushed;
    LegalReady(fs);
    var fs1 := CompE(s.c, fs);
    jz := WhileTest(fs1, fs);
    body := CompS(s.b, jz);
    WhileRoom(body, jz, fs1, fs);
    LayExpr(s.c, fs);
    LayWhileTest(fs1, fs);
    LayTest(fs1, fs);
    LayS(s.b, jz);
    WhileAgrees(cx, body, jz, fs, brk, cont);
  }

  lemma WhileAgrees(cx: Context, body: FState, jz: FState, fs: FState, brk: int, cont: int)
    requires Boundary(fs) && Legal(fs) && CondPushed(fs.(loops := fs.loops + 1), jz) && Stmts(jz, body)
      && |fs.code| <= Pos(jz)
    requires Keeps(fs.(loops := fs.loops + 1), jz) && Boundary(jz) && jz.vlocals == fs.vlocals && Keeps(jz, body)
      && Boundary(body)
    requires AgreeS(cx, fs, WhileEnd(body, jz, fs), brk, cont)
    ensures |jz.code| > 0
    ensures var end := |body.code| + 1;
      && |WhileEnd(body, jz, fs).code| == end
      && TestAt(cx, fs, jz, end - |jz.code|) && AgreeS(cx, jz, body, end, |fs.code|)
      && PatchedAt(cx, |body.code|, Ins(JMP), |fs.code| - |body.code| - 1)
  {
    hide InScope, Keeps, Boundary, Fuse, FuseLast, AgreeS, TestAt, Stmts, LoopBack;
    var fs0 := fs.(loops := fs.loops + 1);
    LayBack(body, jz, fs);
    var back := LoopBack(body, jz, fs);
    LoopAgrees(cx, back, Pos(fs), fs, brk, cont);
    var i := Ins(JMP, 0, Pos(fs) - Pos(body) - 1);
    var scoped := body.(vlocals := fs.vlocals);
    var end := |body.code| + 1;
    ScopeCut(jz, body, |jz.vlocals|);
    assert scoped == EndScope(body, jz, |jz.vlocals|);
    BoundaryClosed(body);
    BoundaryOf(jz, scoped);
    KeepsJump(scoped, i);
    KeepsTrans(jz, scoped, Add(scoped, i));
    assert back == Patch(Add(scoped, i), Pos(jz), end - |jz.code|);
    LoopStart(fs);
    SameJumps(fs0, jz);
    AgreeTest(cx, fs0, jz, Add(scoped, i), end - |jz.code|, end, |fs.code|);
    AgreeSplitS(cx, jz, scoped, Add(scoped, i), end, |fs.code|);
    AgreeScope(cx, jz, body, scoped, end, |fs.code|);
    LastJump(cx, scoped, i, end, |fs.code|);
    TestSame(cx, fs0, fs, jz, end - |jz.code|);
  }

  lemma SameJumps(fs: FState, jz: FState)
    requires CondPushed(fs, jz)
    ensures jz.breaks == fs.breaks && jz.conts == fs.conts && |jz.code| > 0
  {
  }

  lemma TestSame(cx: Context, a: FState, b: FState, jz: FState, d: int)
    requires a.code == b.code && TestAt(cx, a, jz, d)
    ensures TestAt(cx, b, jz, d)
  {
  }

  lemma LastJump(cx: Context, u: FState, i: Instr, brk: int, cont: int)
    requires i.op == JMP && i == Ins(JMP, 0, i.a1) && Add(u, i) == u.(code := u.code + [i], opt := true)
      && AgreeS(cx, u, Add(u, i), brk, cont)
    ensures PatchedAt(cx, |u.code|, Ins(JMP), i.a1)
  {
    AgreePlain(cx, u, Add(u, i), brk, cont);
  }

  lemma WhileUnfold(pr: Prims, s: Stmt, scope: seq<Slot>, env: seq<Val>, w: World, fuel: nat)
    requires |env| == |scope| && s.While? && fuel > 0
    ensures var r1 := Eval(pr, s.c, scope, env, w); var res := Exec(pr, s, scope, env, w, fuel);
      if r1.EThrow? then res == Thrown(r1.w)
      else if IsFalse(Deref(r1.o, r1.env)) then res == Fell(r1.env, r1.w)
      else
        var res2 := Exec(pr, s.b, scope, r1.env, r1.w, fuel);
        if res2.Broke? then res == Fell(Cut(res2.env, |scope|), res2.w)
        else if res2.Fell? || res2.Continued? then
          |Cut(res2.env, |scope|)| == |scope| && res == Exec(pr, s, scope, Cut(res2.env, |scope|), res2.w, fuel - 1)
        else res == res2
  {
    hide Eval;
  }

  lemma StillHere(cx: Context, c: Conf)
    requires Inside(cx, c)
    ensures Running(cx, c, 0)
  {
    ReachRefl(cx, c);
  }

  lemma OutOfFuel(pr: Prims, s: Stmt, scope: seq<Slot>, env: seq<Val>, w: World)
    requires |env| == |scope| && (s.While? || s.DoWhile?)
    ensures Exec(pr, s, scope, env, w, 0) == Timeout
  {
  }

  /** However many iterations the fuel allows. */
  lemma SimWhile(cx: Context, s: Stmt, fs: FState, jz: FState, body: FState, end: int, env: seq<Val>, st: State,
      brk: int, cont: int, fuel: nat)
    requires Enters(fs, st, env) && s.While? && WhileParts(cx, s, fs, jz, body, end)
    ensures Flows(cx, At(|fs.code|, st), Exec(cx.prims, s, fs.vlocals, env, st.w, fuel), end, brk, cont, fuel)
    decreases fuel, s, 1
  {
    hide Boundary, CompE, CondTest, CompS, Fine, Fits, Legal, AgreeS, TestAt, Frontier, Exec, Eval, Reach, Locals, One,
      Laid, Add, PatchedAt, Lands, Running, Admissible, CondPushed;
    var c0 := At(|fs.code|, st);
    if fuel == 0 {
      OutOfFuel(cx.prims, s, fs.vlocals, env, st.w);
      TestInside(cx, fs, jz, end - |jz.code|, st);
      StillHere(cx, c0);
    } else {
      WhileUnfold(cx.prims, s, fs.vlocals, env, st.w, fuel);
      TestIs(CompE(s.c, fs), fs);
      TestLoops(cx, fs, CondTest(CompE(s.c, fs), fs), jz, end - |jz.code|);
      var st' := SimTestS(cx, s.c, 0, end - |jz.code|, fs, env, st);
      var r1 := Eval(cx.prims, s.c, fs.vlocals, env, st.w);
      if r1.EOk? {
        if IsFalse(Deref(r1.o, r1.env)) {
          LandsNow(cx, c0, end, st', r1.env, r1.w);
        } else {
          var c1 := At(|jz.code|, st');
          EntersBranch(fs, jz, st', r1.env);
          SimS(cx, s.b, jz, r1.env, st', end, |fs.code|, fuel);
          var res := Exec(cx.prims, s.b, fs.vlocals, r1.env, r1.w, fuel);
          FlowsFrom(cx, c0, c1, res, |body.code|, end, |fs.code|, 1, fuel);
          if res.Fell? || res.Continued? {
            var env2 := Cut(res.env, |fs.vlocals|);
            var st2 := LoopsBack(cx, c0, c1, res, fs, body, end, |fs.vlocals|, fuel);
            EntersBranch(fs, fs, st2, env2);
            SimWhile(cx, s, fs, jz, body, end, env2, st2, brk, cont, fuel - 1);
            FlowsFrom(cx, c0, At(|fs.code|, st2), Exec(cx.prims, s, fs.vlocals, env2, res.w, fuel - 1), end, brk, cont,
              1, fuel - 1);
          } else {
            LoopLeaves(cx, c0, res, |body.code|, end, brk, |fs.code|, cont, |fs.vlocals|, fuel);
          }
        }
      }
    }
  }

  lemma LandsNow(cx: Context, c0: Conf, pc: int, st: State, env: seq<Val>, w: World)
    requires Reach(cx, c0, At(pc, st), 1) && st.w == w && Locals(st.regs, env)
    ensures Lands(cx, c0, pc, env, w)
  {
    ReachWeaken(cx, c0, At(pc, st), 1, 0);
    assert LandsAt(cx, c0, pc, st, env, w);
  }

  lemma TestInside(cx: Context, fs: FState, jz: FState, d: int, st: State)
    requires TestAt(cx, fs, jz, d) && |fs.code| <= Pos(jz)
    ensures Inside(cx, At(|fs.code|, st))
  {
  }

  lemma TestLoops(cx: Context, fs: FState, a: FState, jz: FState, d: int)
    requires TestAt(cx, fs, jz, d) && a.code == jz.code && a.lits == jz.lits
    ensures TestAt(cx, fs, a, d)
  {
  }

  /** After the body, the jump back: at the start of the loop again, at least one step later. */
  lemma LoopsBack(cx: Context, c0: Conf, c1: Conf, res: Flow, fs: FState, body: FState, end: int, n: nat,
      fuel: nat) returns (st2: State)
    requires Reach(cx, c0, c1, 1) && Flows(cx, c1, res, |body.code|, end, |fs.code|, fuel)
      && (res.Fell? || res.Continued?)
    requires PatchedAt(cx, |body.code|, Ins(JMP), |fs.code| - |body.code| - 1)
    ensures Reach(cx, c0, At(|fs.code|, st2), 1) && st2.w == res.w && Locals(st2.regs, Cut(res.env, n))
  {
    hide Reach;
    FlowsJump(cx, c1, res, |body.code|, Ins(JMP), |fs.code| - |body.code| - 1, end, |fs.code|, fuel);
    LandsCut(cx, c1, |fs.code|, res.env, res.w, n);
    st2 :| LandsAt(cx, c1, |fs.code|, st2, Cut(res.env, n), res.w);
    ReachTrans(cx, c0, c1, At(|fs.code|, st2), 1, 0);
  }

  /** Every other outcome of the body ends the loop. */
  lemma LoopLeaves(cx: Context, c0: Conf, res: Flow, bodyEnd: int, end: int, brk: int, start: int, cont: int, n: nat,
      fuel: nat)
    requires Flows(cx, c0, res, bodyEnd, end, start, fuel + 1) && !res.Fell? && !res.Continued?
    ensures Flows(cx, c0, if res.Broke? then Fell(Cut(res.env, n), res.w) else res, end, brk, cont, fuel)
  {
    hide Reach;
    FlowsWeaken(cx, c0, res, bodyEnd, end, start, fuel + 1, fuel);
    if res.Broke? {
      LandsCut(cx, c0, end, res.env, res.w, n);
    }
  }

  ghost predicate DoParts(cx: Context, s: Stmt, fs: FState, start: FState, last: FState, body: FState, end: int)
    requires Legal(fs) && s.DoWhile?
  {
    && start == fs.(loops := fs.loops + 1) && Legal(start) && Boundary(start) && last == CompS(s.b, start)
    && Admissible(s.b, fs.vlocals) && Fits(last)
    && body == SetStackSize(last, |fs.vlocals|) && Legal(body) && Boundary(body) && body.vlocals == fs.vlocals
    && |body.code| == |last.code|
    && Ready(body) && Fine(s.c, fs.vlocals) && Fits(CompE(s.c, body))
    && AgreeS(cx, start, last, end, |body.code|)
    && DoTestAt(cx, CompE(s.c, body), body, fs, end)
  }

  ghost predicate DoTestAt(cx: Context, fs1: FState, body: FState, fs: FState, end: int) {
    && |fs1.targets| > 0 && 0 <= Top(fs1) < |fs1.vlocals|
    && var jz := Add(Pop(fs1), Ins(JZ, Top(fs1), 1));
    && TestAt(cx, body, jz, 1) && Laid(fs1, jz, fs.vlocals) && Frontier(fs1) <= Pos(jz)
    && PatchedAt(cx, |jz.code|, Ins(JMP), |fs.code| - |jz.code| - 1) && end == |jz.code| + 1
    && |fs.code| <= |body.code| <= Pos(jz)
  }

  lemma DoPartsHold(cx: Context, s: Stmt, fs: FState, brk: int, cont: int) returns (start: FState, last: FState,
      body: FState)
    requires Boundary(fs) && Legal(fs) && s.DoWhile? && Admissible(s, fs.vlocals) && Fits(CompBody(s, fs))
      && AgreeS(cx, fs, CompBody(s, fs), brk, cont)
    ensures DoParts(cx, s, fs, start, last, body, |CompBody(s, fs).code|)
  {
    hide Boundary, CompE, CompS, Keeps, Fine, One, InScope, Laid, Start, Stmts, DoWhileEnd, Fits, Legal, AgreeS,
      EndScope, BeginLoop, DoTestAt, SetStackSize;
    start := BeginLoop(fs);
    last := CompS(s.b, start);
    body := EndScope(last, start, |fs.vlocals|);
    LegalReady(body);
    var fs1 := CompE(s.c, body);
    DoWhileRoom(fs1, body, last, start, fs);
    LoopStart(fs);
    LayS(s.b, start);
    ScopeCut(start, last, |fs.vlocals|);
    BoundaryClosed(last);
    BoundaryOf(start, body);
    LayExpr(s.c, body);
    DoAgrees(cx, fs1, body, last, fs, brk, cont);
  }

  lemma DoAgrees(cx: Context, fs1: FState, body: FState, last: FState, fs: FState, brk: int, cont: int)
    requires Boundary(fs) && Legal(fs) && Boundary(body) && Keeps(fs.(loops := fs.loops + 1), body) && One(body, fs1)
      && body == SetStackSize(last, |fs.vlocals|)
    requires Stmts(fs.(loops := fs.loops + 1), body) && body.vlocals == fs.vlocals
    requires Laid(body, fs1, body.vlocals) && Start(fs1, body.vlocals)
      && AgreeS(cx, fs, DoWhileEnd(fs1, body, fs), brk, cont)
    ensures var end := |DoWhileEnd(fs1, body, fs).code|;
      && AgreeS(cx, fs.(loops := fs.loops + 1), last, end, |body.code|) && DoTestAt(cx, fs1, body, fs, end)
      && |body.code| == |last.code|
  {
    hide InScope, DestSafe, Keeps, Fuse, FuseLast, DoWhileEnd, AgreeS, Laid, Boundary, Frontier, Add;
    var fs0 := fs.(loops := fs.loops + 1);
    LoopStart(fs);
    LayDoTest(fs1, body, fs);
    DoWhileIs(fs1, body, fs);
    var back := DoTest(fs1, body, fs);
    LoopAgrees(cx, back, Pos(body), fs, brk, cont);
    AgreeSplitS(cx, fs0, body, back, |back.code|, |body.code|);
    AgreeScope(cx, fs0, last, body, |back.code|, |body.code|);
    DoTestAgrees(cx, fs1, body, fs);
    KeepsStmts(fs0, body);
  }

  lemma DoTestAgrees(cx: Context, fs1: FState, body: FState, fs: FState)
    requires Legal(fs) && JumpsValid(body) && One(body, fs1) && body.vlocals == fs.vlocals && |fs.code| <= |body.code|
    requires 0 <= Top(fs1) < |fs1.vlocals|
    requires var jz := Add(Pop(fs1), Ins(JZ, Top(fs1), 1)); var back := DoTest(fs1, body, fs);
      && back == jz.(code := jz.code + [Ins(JMP, 0, Pos(fs) - Pos(jz) - 1)], opt := true)
      && Laid(fs1, jz, body.vlocals) && !Open(jz) && Frontier(fs1) <= Pos(jz) && |body.code| <= Pos(jz)
      && AgreeS(cx, body, back, |back.code|, |body.code|)
    ensures DoTestAt(cx, fs1, body, fs, |DoTest(fs1, body, fs).code|)
  {
    hide Laid, DoTest, Add, Frontier;
    var back := DoTest(fs1, body, fs);
    var p := Pop(fs1);
    PopOne(body, fs1);
    JzOperand(p, Top(fs1), 1);
    var jz := Add(p, Ins(JZ, Top(fs1), 1));
    AddSame(p, Ins(JZ, Top(fs1), 1));
    AgreePlain(cx, body, back, |back.code|, |body.code|);
    assert Last(jz.code).(a1 := 1) == Last(jz.code);
  }

  lemma JzOperand(p: FState, r: int, a1: int)
    ensures |Add(p, Ins(JZ, r, a1)).code| > 0 && Last(Add(p, Ins(JZ, r, a1)).code).a1 == a1
  {
  }

  lemma DoUnfold(pr: Prims, s: Stmt, scope: seq<Slot>, env: seq<Val>, w: World, fuel: nat)
    requires |env| == |scope| && s.DoWhile? && fuel > 0
    ensures var res2 := Exec(pr, s.b, scope, env, w, fuel); var res := Exec(pr, s, scope, env, w, fuel);
      if res2.Broke? then res == Fell(Cut(res2.env, |scope|), res2.w)
      else if res2.Fell? || res2.Continued? then
        && |Cut(res2.env, |scope|)| == |scope|
        && var r1 := Eval(pr, s.c, scope, Cut(res2.env, |scope|), res2.w);
          if r1.EThrow? then res == Thrown(r1.w)
          else
            res == if IsFalse(Deref(r1.o, r1.env)) then Fell(r1.env, r1.w)
              else Exec(pr, s, scope, r1.env, r1.w, fuel - 1)
      else res == res2
  {
    hide Eval;
  }

  lemma SimDoWhile(cx: Context, s: Stmt, fs: FState, start: FState, last: FState, body: FState, end: int,
      env: seq<Val>, st: State,
    brk: int, cont: int, fuel: nat)
    requires Enters(fs, st, env) && s.DoWhile? && DoParts(cx, s, fs, start, last, body, end)
    ensures Flows(cx, At(|fs.code|, st), Exec(cx.prims, s, fs.vlocals, env, st.w, fuel), end, brk, cont, fuel)
    decreases fuel, s, 1
  {
    hide Boundary, CompE, CompS, Fine, Fits, Legal, AgreeS, Exec, Eval, Reach, Locals, Laid, Add, Lands, Running,
      DoTestAt, Admissible, SetStackSize;
    var c0 := At(|fs.code|, st);
    if fuel == 0 {
      OutOfFuel(cx.prims, s, fs.vlocals, env, st.w);
      DoInside(cx, CompE(s.c, body), body, fs, end, st);
      StillHere(cx, c0);
    } else {
      DoUnfold(cx.prims, s, fs.vlocals, env, st.w, fuel);
      EntersBranch(fs, start, st, env);
      SimS(cx, s.b, start, env, st, end, |body.code|, fuel);
      var res := Exec(cx.prims, s.b, fs.vlocals, env, st.w, fuel);
      if res.Fell? || res.Continued? {
        var env2 := Cut(res.env, |fs.vlocals|);
        var st2 := BodyEnds(cx, c0, res, body, end, |fs.vlocals|, fuel);
        EntersBranch(fs, body, st2, env2);
        var st3 := SimDoTest(cx, s, fs, body, end, env2, st2, c0);
        var r1 := Eval(cx.prims, s.c, fs.vlocals, env2, res.w);
        if r1.EOk? && !IsFalse(Deref(r1.o, r1.env)) {
          EntersBranch(fs, fs, st3, r1.env);
          SimDoWhile(cx, s, fs, start, last, body, end, r1.env, st3, brk, cont, fuel - 1);
          FlowsFrom(cx, c0, At(|fs.code|, st3), Exec(cx.prims, s, fs.vlocals, r1.env, r1.w, fuel - 1), end, brk, cont,
            1, fuel - 1);
        }
      } else {
        DoLeaves(cx, c0, res, |body.code|, end, brk, cont, |fs.vlocals|, fuel);
      }
    }
  }

  lemma DoInside(cx: Context, fs1: FState, body: FState, fs: FState, end: int, st: State)
    requires DoTestAt(cx, fs1, body, fs, end)
    ensures Inside(cx, At(|fs.code|, st))
  {
  }

  lemma BodyEnds(cx: Context, c0: Conf, res: Flow, body: FState, end: int, n: nat, fuel: nat) returns (st2: State)
    requires Flows(cx, c0, res, |body.code|, end, |body.code|, fuel) && (res.Fell? || res.Continued?)
    ensures Reach(cx, c0, At(|body.code|, st2)) && st2.w == res.w && Locals(st2.regs, Cut(res.env, n))
  {
    hide Reach;
    LandsCut(cx, c0, |body.code|, res.env, res.w, n);
    st2 :| LandsAt(cx, c0, |body.code|, st2, Cut(res.env, n), res.w);
  }

  lemma DoLeaves(cx: Context, c0: Conf, res: Flow, bodyEnd: int, end: int, brk: int, cont: int, n: nat, fuel: nat)
    requires Flows(cx, c0, res, bodyEnd, end, bodyEnd, fuel) && !res.Fell? && !res.Continued?
    ensures Flows(cx, c0, if res.Broke? then Fell(Cut(res.env, n), res.w) else res, end, brk, cont, fuel)
  {
    hide Reach;
    if res.Broke? {
      LandsCut(cx, c0, end, res.env, res.w, n);
    }
  }

  /** The test at the end of the body, and the jump back when it holds. */
  lemma SimDoTest(cx: Context, s: Stmt, fs: FState, body: FState, end: int, env: seq<Val>, st: State,
      c0: Conf) returns (st': State)
    requires Legal(fs) && s.DoWhile? && Enters(body, st, env) && body.vlocals == fs.vlocals && Fine(s.c, fs.vlocals)
      && Fits(CompE(s.c, body))
    requires DoTestAt(cx, CompE(s.c, body), body, fs, end) && Reach(cx, c0, At(|body.code|, st))
    ensures var r1 := Eval(cx.prims, s.c, fs.vlocals, env, st.w);
      if r1.EThrow? then Reach(cx, c0, Raised(r1.w))
      else if IsFalse(Deref(r1.o, r1.env)) then Lands(cx, c0, end, r1.env, r1.w)
      else Reach(cx, c0, At(|fs.code|, st'), 1) && Locals(st'.regs, r1.env) && st'.w == r1.w
  {
    hide CompE, Fine, Fits, Eval, Reach, Locals, Laid, Add, Legal, Boundary, Lands;
    st' := SimTestS(cx, s.c, 1, 1, body, env, st);
    var c1 := At(|body.code|, st);
    var r1 := Eval(cx.prims, s.c, fs.vlocals, env, st.w);
    if r1.EThrow? {
      ReachTrans(cx, c0, c1, Raised(r1.w), 0, 0);
    } else {
      var jz := Add(Pop(CompE(s.c, body)), Ins(JZ, Top(CompE(s.c, body)), 1));
      if IsFalse(Deref(r1.o, r1.env)) {
        ReachTrans(cx, c0, c1, At(end, st'), 0, 1);
        LandsNow(cx, c0, end, st', r1.env, r1.w);
      } else {
        var c := At(|jz.code|, st');
        ReachTrans(cx, c0, c1, c, 0, 1);
        ReachStep(cx, c);
        ReachTrans(cx, c0, c, Step(cx, c), 1, 1);
        ReachWeaken(cx, c0, Step(cx, c), 2, 1);
      }
    }
  }

  // --- all statements

  /** Every statement, whatever fuel bounds its loops. */
  lemma SimS(cx: Context, s: Stmt, fs: FState, env: seq<Val>, st: State, brk: int, cont: int, fuel: nat)
    requires Enters(fs, st, env) && Admissible(s, fs.vlocals) && Fits(CompS(s, fs))
      && AgreeS(cx, fs, CompS(s, fs), brk, cont)
    ensures Flows(cx, At(|fs.code|, st), Exec(cx.prims, s, fs.vlocals, env, st.w, fuel), |CompS(s, fs).code|, brk,
      cont, fuel)
    decreases fuel, s, 3
  {
    hide CompBody, Boundary, Legal, Ready, Admissible, AgreeS, Exec, Flows, Locals;
    AgreeScope(cx, fs, CompBody(s, fs), CompS(s, fs), brk, cont);
    SimBody(cx, s, fs, env, st, brk, cont, fuel);
  }

  lemma SimBody(cx: Context, s: Stmt, fs: FState, env: seq<Val>, st: State, brk: int, cont: int, fuel: nat)
    requires Enters(fs, st, env) && Admissible(s, fs.vlocals) && Fits(CompBody(s, fs))
      && AgreeS(cx, fs, CompBody(s, fs), brk, cont)
    ensures Flows(cx, At(|fs.code|, st), Exec(cx.prims, s, fs.vlocals, env, st.w, fuel), |CompBody(s, fs).code|, brk,
      cont, fuel)
    decreases fuel, s, 2
  {
    hide CompBody, Boundary, Legal, Ready, Admissible, AgreeS, Exec, Flows, Locals, Fits;
    match s
    case Block(ss) =>
      IfBlockIs(ss, fs);
      AgreeScope(cx, fs, CompAll(ss, fs), CompBody(s, fs), brk, cont);
      AdmissibleBlock(ss, fs.vlocals);
      SimBlock(cx, ss, fs, env, st, brk, cont, fuel);
    case If(_, _, _) => SimIf(cx, s, fs, env, st, brk, cont, fuel);
    case While(_, _) =>
      var jz, body := WhilePartsHold(cx, s, fs, brk, cont);
      SimWhile(cx, s, fs, jz, body, |CompBody(s, fs).code|, env, st, brk, cont, fuel);
    case DoWhile(_, _) =>
      var start, last, body := DoPartsHold(cx, s, fs, brk, cont);
      SimDoWhile(cx, s, fs, start, last, body, |CompBody(s, fs).code|, env, st, brk, cont, fuel);
    case _ => SimSimple(cx, s, fs, env, st, brk, cont, fuel);
  }

  lemma AdmissibleBlock(ss: seq<Stmt>, scope: seq<Slot>)
    requires Admissible(Block(ss), scope)
    ensures AdmissibleAll(ss, scope)
  {
  }

  lemma SimSimple(cx: Context, s: Stmt, fs: FState, env: seq<Val>, st: State, brk: int, cont: int, fuel: nat)
    requires Enters(fs, st, env) && Admissible(s, fs.vlocals) && Fits(CompBody(s, fs))
      && AgreeS(cx, fs, CompBody(s, fs), brk, cont)
    requires !s.Block? && !s.If? && !s.While? && !s.DoWhile?
    ensures Flows(cx, At(|fs.code|, st), Exec(cx.prims, s, fs.vlocals, env, st.w, fuel), |CompBody(s, fs).code|, brk,
      cont, fuel)
  {
    hide Boundary, Legal, Ready, CompE, AgreeS, Locals, Fits, Fine, ExprEnd, Jump, DeclEnd, DeclMove, Result,
      ReturnEnd, ReturnNull, Reach, Lands, Eval;
    match s {
      case Empty => SimEmpty(cx, fs, env, st);
      case ExprStmt(e) =>
        ExprRoom(CompE(e, fs), fs);
        SimExprStmt(cx, e, fs, env, st, brk, cont, fuel);
      case VarDecl(x, init) => SimVarDecl(cx, x, init, fs, env, st, brk, cont, fuel);
      case Break => SimJump(cx, true, fs, env, st, brk, cont);
      case Continue => SimJump(cx, false, fs, env, st, brk, cont);
      case Return(r) => SimReturn(cx, r, fs, env, st, brk, cont, fuel);
      case _ =>
    }
  }

  lemma SimEmpty(cx: Context, fs: FState, env: seq<Val>, st: State)
    requires Enters(fs, st, env)
    ensures Lands(cx, At(|fs.code|, st), |fs.code|, env, st.w)
  {
    ReachRefl(cx, At(|fs.code|, st));
    assert LandsAt(cx, At(|fs.code|, st), |fs.code|, st, env, st.w);
  }
}
