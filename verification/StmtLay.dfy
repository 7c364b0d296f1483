/** How the code of statements is laid out: between statements nothing is pending, a statement only
    appends code, and the jumps it leaves unresolved are its own. */
module StmtLay {
  import opened Bytecode
  import opened FuncState
  import opened Source
  import opened CodeGen
  import opened Simulation
  import opened Layout
  import opened StmtGen

  // --- which statements

  /** An expression that starts a statement: nothing is pending before it. */
  predicate Fine(e: Expr, scope: seq<Slot>) {
    WellFormed(e) && Safe(e, false, scope)
  }

  /** Well-formed, and no unbraced branch of an `if` declares a variable, which would stay in scope
      although it may never have been initialised. */
  predicate Admissible(s: Stmt, scope: seq<Slot>)
    decreases s, 1
  {
    match s
    case ExprStmt(e) => Fine(e, scope)
    case VarDecl(_, init) => init.Some? ==> Fine(init.value, scope)
    case Block(ss) => AdmissibleAll(ss, scope)
    case If(c, t, f) => Fine(c, scope) && !t.VarDecl? && Admissible(t, scope)
      && (f.Some? ==> !f.value.VarDecl? && Admissible(f.value, scope))
    case While(c, b) => Fine(c, scope) && Admissible(b, scope)
    case DoWhile(b, c) => Admissible(b, scope) && Fine(c, scope)
    case Return(result) => result.Some? ==> Fine(result.value, scope)
    case _ => true
  }

  predicate AdmissibleAll(ss: seq<Stmt>, scope: seq<Slot>)
    decreases ss, 0
  {
    ss == [] || (Admissible(ss[0], scope) && AdmissibleAll(ss[1..], ScopeAfter(ss[0], scope)))
  }

  // --- layout

  /** Between statements nothing is pending, and the registers in use are the local variables. */
  predicate Boundary(fs: FState) {
    Legal(fs) && InScope(fs, fs.vlocals) && !Open(fs)
  }

  /** Unresolved jumps were emitted after `fs`. */
  predicate Jumps(s: seq<int>, fs: FState, fs': FState) {
    forall k :: 0 <= k < |s| ==> |fs.code| <= s[k] < |fs'.code| && fs'.code[s[k]].op == JMP
  }

  predicate Keeps(fs: FState, fs': FState) {
    && Stmts(fs, fs') && fs.code <= fs'.code
    && Jumps(fs'.breaks[|fs.breaks|..], fs, fs') && Jumps(fs'.conts[|fs.conts|..], fs, fs')
    && InScope(fs', fs'.vlocals)
  }

  lemma KeepsTrans(a: FState, b: FState, c: FState)
    requires Legal(a) && Keeps(a, b) && Keeps(b, c)
    ensures Keeps(a, c)
  {
    hide InScope;
    StmtsTrans(a, b, c);
    JumpsTrans(a, b, c, a.breaks, b.breaks, c.breaks);
    JumpsTrans(a, b, c, a.conts, b.conts, c.conts);
  }

  lemma JumpsTrans(a: FState, b: FState, c: FState, x: seq<int>, y: seq<int>, z: seq<int>)
    requires a.code <= b.code <= c.code && x <= y <= z
    requires Jumps(y[|x|..], a, b) && Jumps(z[|y|..], b, c)
    ensures Jumps(z[|x|..], a, c)
  {
    forall k | 0 <= k < |z[|x|..]| ensures |a.code| <= z[|x|..][k] < |c.code| && c.code[z[|x|..][k]].op == JMP {
      if k < |y| - |x| {
        assert z[|x|..][k] == y[|x|..][k];
      } else {
        assert z[|x|..][k] == z[|y|..][k - (|y| - |x|)];
      }
    }
  }

  lemma KeepsSelf(fs: FState)
    requires Legal(fs) && InScope(fs, fs.vlocals)
    ensures Keeps(fs, fs)
  {
    assert fs.breaks[|fs.breaks|..] == [] && fs.conts[|fs.conts|..] == [];
  }

  /** Code that adds no unresolved jump. */
  lemma KeepsNoJumps(fs: FState, fs': FState)
    requires Stmts(fs, fs') && fs.code <= fs'.code && fs'.breaks == fs.breaks && fs'.conts == fs.conts
      && InScope(fs', fs'.vlocals)
    ensures Keeps(fs, fs')
  {
    assert fs'.breaks[|fs.breaks|..] == [] && fs'.conts[|fs.conts|..] == [];
  }

  lemma BoundaryStart(fs: FState)
    requires Boundary(fs)
    ensures Start(fs, fs.vlocals) && Ready(fs) && Legal(fs) && !LastIsCmp(fs) && Frontier(fs) == |fs.code|
  {
  }

  /** Code of an expression is appended. */
  lemma LaidAppends(fs: FState, fs1: FState, scope: seq<Slot>)
    requires Laid(fs, fs1, scope) && !Open(fs)
    ensures fs.code <= fs1.code && |fs.code| <= Frontier(fs1) <= |fs1.code|
  {
  }

  lemma LayExpr(e: Expr, fs: FState)
    requires Boundary(fs) && Ready(fs) && Fine(e, fs.vlocals) && Fits(CompE(e, fs))
    ensures var fs1 := CompE(e, fs); Laid(fs, fs1, fs.vlocals) && Start(fs1, fs.vlocals)
    ensures var fs1 := CompE(e, fs); fs.code <= fs1.code && |fs.code| <= Frontier(fs1) <= |fs1.code|
  {
    hide Laid, CompE, Safe, WellFormed, DestSafe, InScope, Extends, EndsCmp, Frontier, Open;
    BoundaryStart(fs);
    LayE(e, fs, fs.vlocals);
    StartOf(fs, CompE(e, fs), fs.vlocals);
    LaidAppends(fs, CompE(e, fs), fs.vlocals);
  }

  lemma StartOf(fs: FState, fs': FState, scope: seq<Slot>)
    requires Laid(fs, fs', scope)
    ensures Start(fs', scope)
  {
  }

  lemma KeepsExprEnd(fs1: FState, fs: FState)
    requires Boundary(fs) && One(fs, fs1) && Laid(fs, fs1, fs.vlocals) && Start(fs1, fs.vlocals)
    ensures Keeps(fs, ExprEnd(fs1, fs)) && ExprEnd(fs1, fs).vlocals == fs.vlocals
  {
    PopOne(fs, fs1);
    LaidAppends(fs, fs1, fs.vlocals);
    KeepsNoJumps(fs, ExprEnd(fs1, fs));
  }

  lemma ScopePush(fs: FState, fs2: FState, x: string)
    requires InScope(fs, fs.vlocals) && fs2.vlocals == fs.vlocals + [Named(x)] && |fs2.vlocals| <= fs2.stacksize
    ensures InScope(fs2, fs2.vlocals)
  {
  }

  lemma KeepsDecl(x: string, fs2: FState, fs: FState)
    requires Boundary(fs) && One(fs, fs2) && Top(fs2) == |fs.vlocals| && fs.code <= fs2.code
      && |fs2.vlocals| <= fs2.stacksize
    ensures Keeps(fs, DeclEnd(x, fs2, fs))
  {
    hide InScope;
    PopOne(fs, fs2);
    ScopePush(fs, DeclEnd(x, fs2, fs), x);
    KeepsNoJumps(fs, DeclEnd(x, fs2, fs));
  }

  /** Code of the initialiser, moved to the variable's register. */
  lemma LayDeclMove(fs1: FState, fs: FState)
    requires Boundary(fs) && One(fs, fs1) && Laid(fs, fs1, fs.vlocals) && Start(fs1, fs.vlocals)
      && Fits(DeclMove(fs1, fs))
    ensures var fs2 := DeclMove(fs1, fs);
      Laid(fs1, fs2, fs.vlocals) && Laid(fs, fs2, fs.vlocals) && fs.code <= fs2.code && |fs2.vlocals| <= fs2.stacksize
  {
    hide Add, Fuse, FuseLast;
    PopOne(fs, fs1);
    LayPop(fs, fs1, fs.vlocals);
    var dest := PushTemp(Pop(fs1));
    assert Start(dest, fs.vlocals);
    LayAdd(dest, Ins(MOVE, Top(dest), Top(fs1)), fs.vlocals);
    LaidTrans(fs, fs1, DeclMove(fs1, fs), fs.vlocals);
    LaidAppends(fs, DeclMove(fs1, fs), fs.vlocals);
  }

  lemma LayTest(fs1: FState, fs: FState)
    requires Boundary(fs) && One(fs, fs1) && Laid(fs, fs1, fs.vlocals) && Start(fs1, fs.vlocals)
    ensures var jz := CondTest(fs1, fs);
      && Keeps(fs, jz) && Boundary(jz) && jz.vlocals == fs.vlocals && Laid(fs1, jz, fs.vlocals)
      && Laid(fs, jz, fs.vlocals)
      && Frontier(fs1) <= Pos(jz) && |fs.code| <= Pos(jz)
  {
    hide CondTest, InScope, DestSafe, Laid;
    BoundaryStart(fs);
    LayCondTest(fs1, fs, fs.vlocals);
    var jz := CondTest(fs1, fs);
    TestStmts(fs, jz);
    LaidTrans(fs, fs1, jz, fs.vlocals);
    LaidAppends(fs, fs1, fs.vlocals);
    LaidAppends(fs, jz, fs.vlocals);
    LaidScope(fs, jz);
    KeepsNoJumps(fs, jz);
  }

  lemma LaidScope(fs: FState, jz: FState)
    requires Laid(fs, jz, fs.vlocals) && jz.vlocals == fs.vlocals
    ensures InScope(jz, jz.vlocals)
  {
  }

  /** Patching an instruction emitted since, which is no unresolved jump. */
  lemma KeepsPatch(fs: FState, u: FState, pos: int, d: int)
    requires Legal(fs) && Keeps(fs, u) && |fs.code| <= pos < |u.code|
    ensures Keeps(fs, Patch(u, pos, d)) && (Open(Patch(u, pos, d)) ==> Open(u)) && Legal(u) && Legal(Patch(u, pos, d))
  {
    StmtsLegal(fs, u);
  }

  lemma KeepsJump(t': FState, i: Instr)
    requires Boundary(t') && i.op == JMP
    ensures Keeps(t', Add(t', i)) && Boundary(Add(t', i)) && Add(t', i) == t'.(code := t'.code + [i], opt := true)
  {
    AddAppends(t', i);
    AddSame(t', i);
    SameStmts(t', Add(t', i));
    KeepsNoJumps(t', Add(t', i));
  }

  lemma ScopeCut(fs: FState, u: FState, n: nat)
    requires Boundary(fs) && n == |fs.vlocals| && Keeps(fs, u)
    ensures Keeps(fs, EndScope(u, fs, n)) && EndScope(u, fs, n).vlocals == fs.vlocals
    ensures EndScope(u, fs, n) == SetStackSize(u, n) && Open(EndScope(u, fs, n)) == Open(u) && Legal(EndScope(u, fs, n))
  {
    assert SetStackSize(u, n).vlocals == fs.vlocals;
  }

  lemma BoundaryOf(fs: FState, u: FState)
    requires Legal(fs) && Keeps(fs, u) && !Open(u)
    ensures Boundary(u) && Boundary(Snooze(u)) && Keeps(fs, Snooze(u))
  {
    StmtsLegal(fs, u);
  }

  lemma SnoozeKeeps(fs: FState, u: FState)
    requires Legal(fs) && Keeps(fs, u)
    ensures Boundary(Snooze(u)) && Keeps(fs, Snooze(u))
  {
    StmtsLegal(fs, u);
  }

  lemma KeepsIf(t': FState, jz: FState, fs: FState)
    requires Boundary(fs) && CondPushed(fs, jz) && Keeps(fs, jz) && |fs.code| <= Pos(jz) && Keeps(jz, t')
      && t'.vlocals == fs.vlocals
    ensures Keeps(fs, IfEnd(t', jz, fs)) && IfEnd(t', jz, fs).vlocals == fs.vlocals
  {
    hide InScope;
    KeepsTrans(fs, jz, t');
    KeepsPatch(fs, t', Pos(jz), Pos(t') - Pos(jz));
  }

  lemma KeepsIfElse(f': FState, jmp: FState, t': FState, jz: FState, fs: FState)
    requires Boundary(fs) && CondPushed(fs, jz) && Keeps(fs, jz) && |fs.code| <= Pos(jz) && Keeps(jz, t')
    requires Keeps(t', jmp) && |jmp.code| == |t'.code| + 1 && Keeps(jmp, f') && f'.vlocals == fs.vlocals
    ensures Legal(fs) && Keeps(fs, IfElseEnd(f', jmp, t', jz, fs))
      && IfElseEnd(f', jmp, t', jz, fs).vlocals == fs.vlocals
  {
    hide InScope;
    KeepsTrans(fs, jz, t');
    KeepsTrans(fs, t', jmp);
    KeepsTrans(fs, jmp, f');
    KeepsPatch(fs, f', Pos(jmp), Pos(f') - Pos(jmp));
    KeepsPatch(fs, Patch(f', Pos(jmp), Pos(f') - Pos(jmp)), Pos(jz), Pos(t') - Pos(jz) + 1);
  }

  /** Resolving the jumps of a loop touches nothing that was there before it. */
  lemma KeepsLoop(back: FState, target: int, fs: FState)
    requires Boundary(fs) && Stmts(fs.(loops := fs.loops + 1), back) && Keeps(fs.(loops := fs.loops + 1), back)
    ensures Keeps(fs, EndLoop(back, |fs.breaks|, |fs.conts|, target, fs))
    ensures EndLoop(back, |fs.breaks|, |fs.conts|, target, fs).vlocals == back.vlocals
  {
    hide InScope;
    var fs' := EndLoop(back, |fs.breaks|, |fs.conts|, target, fs);
    var c := ResolveConts(back, |back.conts| - |fs.conts|, target);
    forall j | 0 <= j < |fs.code| ensures fs'.code[j] == fs.code[j] {
      assert j !in back.conts[|fs.conts|..] && j !in back.breaks[|fs.breaks|..];
      assert c.code[j] == back.code[j];
    }
    InScopeSame(back, fs');
    KeepsNoJumps(fs, fs');
  }

  lemma InScopeSame(a: FState, b: FState)
    requires InScope(a, a.vlocals) && a.vlocals == b.vlocals && a.stacksize == b.stacksize
    ensures InScope(b, b.vlocals)
  {
  }

  // --- all statements

  lemma LayS(s: Stmt, fs: FState)
    requires Boundary(fs) && Legal(fs) && Admissible(s, fs.vlocals) && Fits(CompS(s, fs))
    ensures Keeps(fs, CompS(s, fs)) && Boundary(CompS(s, fs)) && CompS(s, fs).vlocals == ScopeAfter(s, fs.vlocals)
    decreases s, 3
  {
    hide Boundary, Legal, Admissible, Keeps, CompBody, Stmts, Open;
    LayBody(s, fs);
    SnoozeKeeps(fs, CompBody(s, fs));
  }

  lemma LayBody(s: Stmt, fs: FState)
    requires Boundary(fs) && Legal(fs) && Admissible(s, fs.vlocals) && Fits(CompBody(s, fs))
    ensures Keeps(fs, CompBody(s, fs)) && CompBody(s, fs).vlocals == ScopeAfter(s, fs.vlocals)
    decreases s, 2
  {
    hide Keeps, CompBody, Fits, Boundary, Legal, Admissible;
    match s
    case Block(ss) => LayBlock(ss, fs);
    case If(c, t, f) => LayIf(s, fs);
    case While(c, b) => LayWhile(s, fs);
    case DoWhile(b, c) => LayDoWhile(s, fs);
    case _ => LaySimple(s, fs);
  }

  lemma LaySimple(s: Stmt, fs: FState)
    requires Boundary(fs) && Legal(fs) && Admissible(s, fs.vlocals) && Fits(CompBody(s, fs))
    requires !s.Block? && !s.If? && !s.While? && !s.DoWhile?
    ensures Keeps(fs, CompBody(s, fs)) && CompBody(s, fs).vlocals == ScopeAfter(s, fs.vlocals)
  {
    hide Boundary, CompE, ExprEnd, DeclMove, DeclEnd, Result, Jump, ReturnNull, ReturnEnd, Keeps, Fine, One, InScope,
      Laid, Start, Stmts;
    match s {
      case Empty =>
        BoundaryScope(fs);
        KeepsSelf(fs);
      case ExprStmt(e) =>
        ExprRoom(CompE(e, fs), fs);
        LayExpr(e, fs);
        KeepsExprEnd(CompE(e, fs), fs);
      case VarDecl(x, init) => LayVarDecl(x, init, fs);
      case Break => LayJump(fs, true);
      case Continue => LayJump(fs, false);
      case Return(r) => LayReturn(r, fs);
      case _ =>
    }
  }

  lemma BoundaryScope(fs: FState)
    requires Boundary(fs)
    ensures InScope(fs, fs.vlocals)
  {
  }

  lemma ExprRoom(fs1: FState, fs: FState)
    requires Legal(fs) && One(fs, fs1)
    ensures Fits(ExprEnd(fs1, fs)) ==> Fits(fs1)
  {
  }

  lemma DeclRoom(x: string, fs2: FState, fs: FState)
    requires Legal(fs) && One(fs, fs2)
    ensures Fits(DeclEnd(x, fs2, fs)) ==> Fits(fs2)
  {
  }

  lemma MoveRoom(fs1: FState, fs: FState)
    requires One(fs, fs1)
    ensures Fits(DeclMove(fs1, fs)) ==> Fits(fs1)
  {
  }

  lemma LayVarDecl(x: string, init: Option<Expr>, fs: FState)
    requires Boundary(fs) && Legal(fs) && Admissible(VarDecl(x, init), fs.vlocals)
      && Fits(CompBody(VarDecl(x, init), fs))
    ensures Keeps(fs, CompBody(VarDecl(x, init), fs))
      && CompBody(VarDecl(x, init), fs).vlocals == fs.vlocals + [Named(x)]
  {
    hide Boundary, CompE, DeclMove, DeclEnd, Result, Keeps, Fine, One, InScope, Laid, Start, Stmts, Fits;
    BoundaryStart(fs);
    if init.None? {
      var fs2 := Result(fs, LOADNULLS, 1);
      DeclRoom(x, fs2, fs);
      LayResult(fs, LOADNULLS, 1, 0, 0, fs.vlocals);
      StartOf(fs, fs2, fs.vlocals);
      LaidAppends(fs, fs2, fs.vlocals);
      StartRoom(fs2, fs.vlocals);
      KeepsDecl(x, fs2, fs);
    } else {
      var fs1 := CompE(init.value, fs);
      var fs2 := DeclMove(fs1, fs);
      DeclRoom(x, fs2, fs);
      MoveRoom(fs1, fs);
      LayExpr(init.value, fs);
      LayDeclMove(fs1, fs);
      KeepsDecl(x, fs2, fs);
    }
  }

  lemma StartRoom(fs: FState, scope: seq<Slot>)
    requires Start(fs, scope)
    ensures |fs.vlocals| <= fs.stacksize
  {
  }

  lemma LayJump(fs: FState, isBreak: bool)
    requires Boundary(fs) && Legal(fs)
    ensures Keeps(fs, Jump(fs, isBreak)) && Jump(fs, isBreak).vlocals == fs.vlocals
    ensures Jump(fs, isBreak).code == fs.code + [Ins(JMP, 0, UNRESOLVED)]
    ensures Jump(fs, isBreak).breaks[|fs.breaks|..] == (if isBreak then [|fs.code|] else [])
    ensures Jump(fs, isBreak).conts[|fs.conts|..] == (if isBreak then [] else [|fs.code|])
  {
    AddAppends(fs, Ins(JMP, 0, UNRESOLVED));
  }

  lemma LayReturn(r: Option<Expr>, fs: FState)
    requires Boundary(fs) && Legal(fs) && Admissible(Return(r), fs.vlocals) && Fits(CompBody(Return(r), fs))
    ensures Keeps(fs, CompBody(Return(r), fs)) && CompBody(Return(r), fs).vlocals == fs.vlocals
  {
    hide Boundary, CompE, Keeps, Fine, One, InScope, Laid, Start, Stmts;
    BoundaryStart(fs);
    BoundaryScope(fs);
    if r.None? {
      ReturnKeeps(fs, fs, Ins(RETURN, 0xFF, 0, |fs.vlocals|));
    } else {
      var fs1 := CompE(r.value, fs);
      ReturnRoom(fs1, fs);
      LayExpr(r.value, fs);
      PopKeeps(fs1, fs);
      ReturnKeeps(Pop(fs1), fs, Ins(RETURN, 1, Top(fs1), |Pop(fs1).vlocals|));
    }
  }

  lemma PopKeeps(fs1: FState, fs: FState)
    requires Boundary(fs) && One(fs, fs1) && Laid(fs, fs1, fs.vlocals)
    ensures |fs1.targets| > 0 && 0 <= Top(fs1) < |fs1.vlocals| && Same(fs, Pop(fs1)) && fs.code <= Pop(fs1).code
      && InScope(Pop(fs1), Pop(fs1).vlocals)
  {
    PopOne(fs, fs1);
    LaidAppends(fs, fs1, fs.vlocals);
  }

  lemma ReturnRoom(fs1: FState, fs: FState)
    requires Legal(fs) && One(fs, fs1)
    ensures Fits(ReturnEnd(fs1, fs)) ==> Fits(fs1)
  {
  }

  lemma ReturnKeeps(p: FState, fs: FState, i: Instr)
    requires Legal(fs) && Same(fs, p) && fs.code <= p.code && InScope(p, p.vlocals) && i.op == RETURN
    ensures Keeps(fs, Add(p, i)) && Add(p, i).vlocals == fs.vlocals
  {
    AddAppends(p, i);
    KeepsNoJumps(fs, Add(p, i));
  }

  lemma LayBlock(ss: seq<Stmt>, fs: FState)
    requires Boundary(fs) && Legal(fs) && Admissible(Block(ss), fs.vlocals) && Fits(CompBody(Block(ss), fs))
    ensures Keeps(fs, CompBody(Block(ss), fs)) && CompBody(Block(ss), fs).vlocals == fs.vlocals
    decreases ss, 2
  {
    hide Boundary, CompAll, Keeps, InScope, Stmts;
    LayAll(ss, fs);
    ScopeCut(fs, CompAll(ss, fs), |fs.vlocals|);
  }

  lemma LayAll(ss: seq<Stmt>, fs: FState)
    requires Boundary(fs) && Legal(fs) && AdmissibleAll(ss, fs.vlocals) && Fits(CompAll(ss, fs))
    ensures Keeps(fs, CompAll(ss, fs)) && Boundary(CompAll(ss, fs))
    decreases ss, 1
  {
    hide Boundary, CompS, Keeps, InScope, Legal, Admissible;
    if ss == [] {
      BoundaryScope(fs);
      KeepsSelf(fs);
    } else {
      var fs1 := CompS(ss[0], fs);
      StmtsLegal(fs, fs1);
      LayS(ss[0], fs);
      LayAll(ss[1..], fs1);
      KeepsTrans(fs, fs1, CompAll(ss, fs));
    }
  }

  /** A branch of an `if` leaves its scope. */
  lemma LayIfBlock(s: Stmt, fs: FState)
    requires Boundary(fs) && Legal(fs) && Admissible(s, fs.vlocals) && !s.VarDecl? && Fits(IfBlock(s, fs))
    ensures Keeps(fs, IfBlock(s, fs)) && Boundary(IfBlock(s, fs)) && IfBlock(s, fs).vlocals == fs.vlocals
    decreases s, 4
  {
    hide Boundary, CompAll, CompS, Keeps, InScope, Stmts, Legal;
    if s.Block? {
      LayAll(s.ss, fs);
      ScopeCut(fs, CompAll(s.ss, fs), |fs.vlocals|);
      BoundaryClosed(CompAll(s.ss, fs));
      BoundaryOf(fs, IfBlock(s, fs));
    } else {
      LayS(s, fs);
    }
  }

  lemma BoundaryClosed(fs: FState)
    requires Boundary(fs)
    ensures !Open(fs)
  {
  }

  lemma IfRoom(t': FState, jz: FState, fs1: FState, fs: FState)
    requires Legal(fs) && One(fs, fs1) && jz == CondTest(fs1, fs) && Stmts(jz, t')
    ensures Fits(IfEnd(t', jz, fs)) ==> Fits(t') && Fits(jz) && Fits(fs1)
    ensures Fits(t') ==> Fits(jz) && Fits(fs1)
  {
  }

  lemma LayIf(s: Stmt, fs: FState)
    requires Boundary(fs) && Legal(fs) && s.If? && Admissible(s, fs.vlocals) && Fits(CompBody(s, fs))
    ensures Keeps(fs, CompBody(s, fs)) && CompBody(s, fs).vlocals == fs.vlocals
    decreases s, 1
  {
    hide Boundary, CompE, CondTest, IfBlock, Keeps, Fine, One, InScope, Laid, Start, Stmts, IfEnd, IfElseEnd, ElseJump,
      Fits, Legal;
    LegalReady(fs);
    var fs1 := CompE(s.c, fs);
    var jz := CondTest(fs1, fs);
    TestStmts(fs, jz);
    var t' := IfBlock(s.t, jz);
    IfRoom(t', jz, fs1, fs);
    if s.f.None? {
      LayExpr(s.c, fs);
      LayTest(fs1, fs);
      LayIfBlock(s.t, jz);
      KeepsIf(t', jz, fs);
    } else {
      var jmp := ElseJump(t', jz, fs);
      var f' := IfBlock(s.f.value, jmp);
      IfElseRoom(f', jmp, t', jz, fs);
      LayExpr(s.c, fs);
      LayTest(fs1, fs);
      LayIfBlock(s.t, jz);
      LayElse(t', jz, fs);
      LayIfBlock(s.f.value, jmp);
      KeepsIfElse(f', jmp, t', jz, fs);
    }
  }

  lemma IfElseRoom(f': FState, jmp: FState, t': FState, jz: FState, fs: FState)
    requires Legal(fs) && CondPushed(fs, jz) && Stmts(jz, t') && jmp == ElseJump(t', jz, fs) && Stmts(jmp, f')
    ensures Fits(IfElseEnd(f', jmp, t', jz, fs)) ==> Fits(f') && Fits(jmp) && Fits(t')
  {
  }

  lemma LayElse(t': FState, jz: FState, fs: FState)
    requires Legal(fs) && CondPushed(fs, jz) && Stmts(jz, t') && Boundary(t')
    ensures Keeps(t', ElseJump(t', jz, fs)) && Boundary(ElseJump(t', jz, fs))
    ensures ElseJump(t', jz, fs) == t'.(code := t'.code + [Ins(JMP)], opt := true)
  {
    KeepsJump(t', Ins(JMP));
  }

  // --- loops

  lemma LayWhile(s: Stmt, fs: FState)
    requires Boundary(fs) && Legal(fs) && s.While? && Admissible(s, fs.vlocals) && Fits(CompBody(s, fs))
    ensures Keeps(fs, CompBody(s, fs)) && CompBody(s, fs).vlocals == fs.vlocals
    decreases s, 1
  {
    hide Boundary, CompE, CondTest, CompS, Keeps, Fine, One, InScope, Laid, Start, Stmts, WhileTest, WhileEnd, Fits,
      Legal, CondPushed;
    LegalReady(fs);
    var fs1 := CompE(s.c, fs);
    var jz := WhileTest(fs1, fs);
    var body := CompS(s.b, jz);
    WhileRoom(body, jz, fs1, fs);
    LayExpr(s.c, fs);
    LayWhileTest(fs1, fs);
    LayS(s.b, jz);
    LayWhileEnd(body, jz, fs);
  }

  lemma WhileRoom(body: FState, jz: FState, fs1: FState, fs: FState)
    requires Legal(fs) && One(fs, fs1) && jz == WhileTest(fs1, fs) && Stmts(jz, body)
    ensures Fits(WhileEnd(body, jz, fs)) ==> Fits(body) && Fits(jz) && Fits(fs1)
  {
  }

  /** The body of a loop starts with one more enclosing loop. */
  lemma LayWhileTest(fs1: FState, fs: FState)
    requires Boundary(fs) && Legal(fs) && One(fs, fs1) && Laid(fs, fs1, fs.vlocals) && Start(fs1, fs.vlocals)
    ensures var jz := WhileTest(fs1, fs);
      && jz == CondTest(fs1, fs).(loops := fs.loops + 1)
      && Keeps(fs.(loops := fs.loops + 1), jz) && Boundary(jz) && jz.vlocals == fs.vlocals && |fs.code| <= Pos(jz)
  {
    hide CondTest, InScope, Laid, Start, DestSafe;
    LayTest(fs1, fs);
    var jz := CondTest(fs1, fs);
    InScopeSame(jz, jz.(loops := fs.loops + 1));
  }

  lemma LayWhileEnd(body: FState, jz: FState, fs: FState)
    requires Boundary(fs) && Legal(fs) && CondPushed(fs.(loops := fs.loops + 1), jz) && Stmts(jz, body)
      && |fs.code| <= Pos(jz)
    requires Keeps(fs.(loops := fs.loops + 1), jz) && Boundary(jz) && jz.vlocals == fs.vlocals && Keeps(jz, body)
      && Boundary(body)
    ensures Keeps(fs, WhileEnd(body, jz, fs)) && WhileEnd(body, jz, fs).vlocals == fs.vlocals
  {
    hide InScope, LoopBack, EndLoop, Boundary, Keeps;
    LayBack(body, jz, fs);
    KeepsLoop(LoopBack(body, jz, fs), Pos(fs), fs);
  }

  lemma LayBack(body: FState, jz: FState, fs: FState)
    requires Boundary(fs) && Legal(fs) && CondPushed(fs.(loops := fs.loops + 1), jz) && Stmts(jz, body)
      && |fs.code| <= Pos(jz)
    requires Keeps(fs.(loops := fs.loops + 1), jz) && Boundary(jz) && jz.vlocals == fs.vlocals && Keeps(jz, body)
      && Boundary(body)
    ensures var back := LoopBack(body, jz, fs); var fs0 := fs.(loops := fs.loops + 1);
      && Stmts(fs0, back) && Keeps(fs0, back) && Keeps(jz, body)
      && back == body.(vlocals := fs.vlocals, opt := true,
        code := (body.code
          + [Ins(JMP, 0, Pos(fs) - Pos(body) - 1)])[Pos(jz) := body.code[Pos(jz)].(a1 := |body.code| - Pos(jz))])
  {
    hide InScope, Keeps, Boundary, Fuse, FuseLast;
    var fs0 := fs.(loops := fs.loops + 1);
    LoopStart(fs);
    ScopeCut(jz, body, |jz.vlocals|);
    var scoped := SetStackSize(body, |fs.vlocals|);
    assert scoped == EndScope(body, jz, |jz.vlocals|);
    BoundaryClosed(body);
    BoundaryOf(jz, scoped);
    var i := Ins(JMP, 0, Pos(fs) - Pos(body) - 1);
    KeepsJump(scoped, i);
    KeepsTrans(jz, scoped, Add(scoped, i));
    KeepsTrans(fs0, jz, Add(scoped, i));
    KeepsPatch(fs0, Add(scoped, i), Pos(jz), Pos(Add(scoped, i)) - Pos(jz));
    KeepsStmts(fs0, LoopBack(body, jz, fs));
  }

  lemma KeepsStmts(a: FState, b: FState)
    requires Keeps(a, b)
    ensures Stmts(a, b)
  {
  }

  lemma LoopStart(fs: FState)
    requires Boundary(fs)
    ensures Boundary(fs.(loops := fs.loops + 1)) && Legal(fs.(loops := fs.loops + 1))
      && BeginLoop(fs) == fs.(loops := fs.loops + 1)
  {
  }

  lemma LayDoWhile(s: Stmt, fs: FState)
    requires Boundary(fs) && Legal(fs) && s.DoWhile? && Admissible(s, fs.vlocals) && Fits(CompBody(s, fs))
    ensures Keeps(fs, CompBody(s, fs)) && CompBody(s, fs).vlocals == fs.vlocals
    decreases s, 1
  {
    hide Boundary, CompE, CondTest, CompS, Keeps, Fine, One, InScope, Laid, Start, Stmts, DoWhileEnd, Fits, Legal,
      CondPushed, EndScope, BeginLoop;
    var start := BeginLoop(fs);
    var last := CompS(s.b, start);
    var body := EndScope(last, start, |fs.vlocals|);
    LegalReady(body);
    var fs1 := CompE(s.c, body);
    DoWhileRoom(fs1, body, last, start, fs);
    LoopStart(fs);
    LayS(s.b, start);
    ScopeCut(start, last, |fs.vlocals|);
    BoundaryClosed(last);
    BoundaryOf(start, body);
    LayExpr(s.c, body);
    LayDoTest(fs1, body, fs);
    DoWhileIs(fs1, body, fs);
    KeepsLoop(DoTest(fs1, body, fs), Pos(body), fs);
  }

  lemma DoWhileIs(fs1: FState, body: FState, fs: FState)
    requires Legal(fs) && Stmts(fs.(loops := fs.loops + 1), body) && body.vlocals == fs.vlocals && One(body, fs1)
    ensures Stmts(fs.(loops := fs.loops + 1), DoTest(fs1, body, fs))
    ensures DoWhileEnd(fs1, body, fs) == EndLoop(DoTest(fs1, body, fs), |fs.breaks|, |fs.conts|, Pos(body), fs)
    ensures DoTest(fs1, body, fs).vlocals == fs.vlocals
  {
    hide EndLoop;
  }

  lemma DoWhileRoom(fs1: FState, body: FState, last: FState, start: FState, fs: FState)
    requires Legal(fs) && start == BeginLoop(fs) && Stmts(start, last) && body == EndScope(last, start, |fs.vlocals|)
      && One(body, fs1)
    ensures Fits(DoWhileEnd(fs1, body, fs)) ==> Fits(fs1) && Fits(body) && Fits(last)
    ensures Stmts(fs.(loops := fs.loops + 1), body) && body.vlocals == fs.vlocals
  {
  }

  lemma LayDoTest(fs1: FState, body: FState, fs: FState)
    requires Boundary(fs) && Boundary(body) && Keeps(fs.(loops := fs.loops + 1), body) && One(body, fs1)
    requires Laid(body, fs1, body.vlocals) && Start(fs1, body.vlocals)
    ensures Keeps(fs.(loops := fs.loops + 1), DoTest(fs1, body, fs)) && Keeps(body, DoTest(fs1, body, fs))
    ensures 0 <= Top(fs1) < |fs1.vlocals|
    ensures var jz := Add(Pop(fs1), Ins(JZ, Top(fs1), 1));
      && DoTest(fs1, body, fs) == jz.(code := jz.code + [Ins(JMP, 0, Pos(fs) - Pos(jz) - 1)], opt := true)
      && Laid(fs1, jz, body.vlocals) && !Open(jz) && Frontier(fs1) <= Pos(jz) && |body.code| <= Pos(jz)
  {
    hide InScope, DestSafe, Keeps, Add, Laid, Boundary, Frontier, Open, Grown, Pushed;
    LoopStart(fs);
    LayJz(fs1, body);
    var jz := Add(Pop(fs1), Ins(JZ, Top(fs1), 1));
    KeepsJump(jz, Ins(JMP, 0, Pos(fs) - Pos(jz) - 1));
    BoundaryLegal(body);
    KeepsTrans(body, jz, Add(jz, Ins(JMP, 0, Pos(fs) - Pos(jz) - 1)));
    KeepsTrans(fs.(loops := fs.loops + 1), body, Add(jz, Ins(JMP, 0, Pos(fs) - Pos(jz) - 1)));
  }

  lemma BoundaryLegal(fs: FState)
    requires Boundary(fs)
    ensures Legal(fs)
  {
  }

  lemma LayJz(fs1: FState, body: FState)
    requires Boundary(body) && One(body, fs1) && Laid(body, fs1, body.vlocals) && Start(fs1, body.vlocals)
    ensures |fs1.targets| > 0 && 0 <= Top(fs1) < |fs1.vlocals|
    ensures var jz := Add(Pop(fs1), Ins(JZ, Top(fs1), 1));
      && Keeps(body, jz) && Boundary(jz) && Laid(fs1, jz, body.vlocals) && !Open(jz) && Frontier(fs1) <= Pos(jz)
      && |body.code| <= Pos(jz)
  {
    hide InScope, DestSafe, Keeps, Add, Laid, Extends, Open;
    BoundaryStart(body);
    PopOne(body, fs1);
    LayPop(body, fs1, body.vlocals);
    var p := Pop(fs1);
    LayAdd(p, Ins(JZ, Top(fs1), 1), body.vlocals);
    AddSame(p, Ins(JZ, Top(fs1), 1));
    var jz := Add(p, Ins(JZ, Top(fs1), 1));
    LaidTrans(fs1, p, jz, body.vlocals);
    LaidTrans(body, fs1, jz, body.vlocals);
    LaidAppends(body, fs1, body.vlocals);
    LaidAppends(body, jz, body.vlocals);
    LaidScope(body, jz);
    SameStmts(body, jz);
    KeepsNoJumps(body, jz);
    TestClosed(p, Top(fs1), 1);
    SameFrontier(fs1, p);
  }

  lemma SameFrontier(a: FState, b: FState)
    requires a.code == b.code && a.opt == b.opt
    ensures Frontier(a) == Frontier(b)
  {
  }

  lemma TestClosed(p: FState, r: int, a1: int)
    ensures !Open(Add(p, Ins(JZ, r, a1))) && |Add(p, Ins(JZ, r, a1)).code| > 0
      && Frontier(p) <= Pos(Add(p, Ins(JZ, r, a1)))
  {
  }
}
