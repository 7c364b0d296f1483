/** What the compiler emits for statements: jumps are emitted with a placeholder and patched once their
    target is known; breaks and continues wait in lists until their loop ends. */
module StmtGen {
  import opened Bytecode
  import opened FuncState
  import opened Source
  import opened CodeGen

  const UNRESOLVED := -1234

  /** Every pending jump is an emitted instruction. */
  predicate JumpsValid(fs: FState) {
    && Within(fs.breaks, |fs.code|)
    && Within(fs.conts, |fs.code|)
  }

  predicate Within(s: seq<int>, n: nat) {
    forall k :: 0 <= k < |s| ==> 0 <= s[k] < n
  }

  predicate Legal(fs: FState) {
    Ready(fs) && JumpsValid(fs)
  }

  /** A statement leaves the stack of targets alone; it may add variables and pending jumps. */
  predicate Stmts(fs: FState, fs': FState) {
    && |fs.code| <= |fs'.code|
    && fs.lits <= fs'.lits
    && fs.stacksize <= fs'.stacksize
    && fs.breaks <= fs'.breaks && fs.conts <= fs'.conts && fs'.loops == fs.loops
    && (fs'.ok ==> fs.ok)
    && fs'.targets == fs.targets
    && fs.vlocals <= fs'.vlocals
    && JumpsValid(fs')
  }

  lemma StmtsTrans(a: FState, b: FState, c: FState)
    requires Legal(a) && Stmts(a, b) && Stmts(b, c)
    ensures Legal(b) && Stmts(a, c) && Legal(c)
  {
    assert c.vlocals[0] == b.vlocals[0] == a.vlocals[0];
  }

  lemma StmtsSelf(fs: FState)
    requires Legal(fs)
    ensures Stmts(fs, fs)
  {
  }

  lemma StmtsLegal(a: FState, b: FState)
    requires Legal(a) && Stmts(a, b)
    ensures Legal(b)
  {
    assert b.vlocals[0] == a.vlocals[0];
  }

  lemma SameStmts(a: FState, b: FState)
    requires Legal(a) && Same(a, b)
    ensures Stmts(a, b) && Legal(b)
  {
  }

  function EndScope(fs': FState, ghost fs: FState, n: nat): (r: FState)
    requires Legal(fs) && Stmts(fs, fs') && n == |fs.vlocals|
    ensures Stmts(fs, r) && r.vlocals == fs.vlocals && Legal(r)
  {
    SetStackSize(fs', n)
  }

  function CompS(s: Stmt, fs: FState): (fs': FState)
    requires Legal(fs)
    ensures Stmts(fs, fs')
    decreases s, 3
  {
    hide *;
    var fs1 := CompBody(s, fs);
    SnoozeStmts(fs, fs1);
    Snooze(fs1)
  }

  lemma SnoozeStmts(fs: FState, fs': FState)
    requires Stmts(fs, fs')
    ensures Stmts(fs, Snooze(fs'))
  {
  }

  function CompBody(s: Stmt, fs: FState): (fs': FState)
    requires Legal(fs)
    ensures Stmts(fs, fs')
    decreases s, 2
  {
    hide *;
    LegalReady(fs);
    match s
    case Empty => StmtsSelf(fs); fs
    case ExprStmt(e) => ExprEnd(CompE(e, fs), fs)
    case VarDecl(x, init) =>
      if init.None? then DeclEnd(x, Result(fs, LOADNULLS, 1), fs) else DeclEnd(x, DeclMove(CompE(init.value, fs), fs),
        fs)
    case Block(ss) => EndScope(CompAll(ss, fs), fs, |fs.vlocals|)
    case If(c, t, f) =>
      var jz := CondTest(CompE(c, fs), fs);
      TestStmts(fs, jz);
      var t' := IfBlock(t, jz);
      if f.None? then IfEnd(t', jz, fs)
      else
        var jmp := ElseJump(t', jz, fs);
        IfElseEnd(IfBlock(f.value, jmp), jmp, t', jz, fs)
    case While(c, b) =>
      var jz := WhileTest(CompE(c, fs), fs);
      WhileEnd(CompS(b, jz), jz, fs)
    case DoWhile(b, c) => CompDoWhile(b, c, fs)
    case Break => Jump(fs, true)
    case Continue => Jump(fs, false)
    case Return(r) => if r.None? then ReturnNull(fs) else ReturnEnd(CompE(r.value, fs), fs)
  }

  function CompDoWhile(b: Stmt, c: Expr, fs: FState): (fs': FState)
    requires Legal(fs)
    ensures Stmts(fs, fs')
    decreases DoWhile(b, c), 1
  {
    hide *;
    var start := BeginLoop(fs);
    var body := EndScope(CompS(b, start), start, |fs.vlocals|);
    LegalReady(body);
    DoWhileEnd(CompE(c, body), body, fs)
  }

  lemma LegalReady(fs: FState)
    requires Legal(fs)
    ensures Ready(fs)
  {
  }

  function CompAll(ss: seq<Stmt>, fs: FState): (fs': FState)
    requires Legal(fs)
    ensures Stmts(fs, fs')
    decreases ss, 1
  {
    hide *;
    if ss == [] then
      StmtsSelf(fs);
      fs
    else
      var fs1 := CompS(ss[0], fs);
      StmtsLegal(fs, fs1);
      var fs' := CompAll(ss[1..], fs1);
      StmtsTrans(fs, fs1, fs');
      fs'
  }

  /** A braced branch is a scope of its own; any other statement is compiled as it stands. */
  function IfBlock(s: Stmt, fs: FState): (fs': FState)
    requires Legal(fs)
    ensures Stmts(fs, fs')
    decreases s, 4
  {
    hide *;
    match s
    case Block(ss) => EndScope(CompAll(ss, fs), fs, |fs.vlocals|)
    case _ => CompS(s, fs)
  }

  function ExprEnd(fs1: FState, ghost fs: FState): (fs': FState)
    requires Legal(fs) && One(fs, fs1)
    ensures Stmts(fs, fs') && fs'.vlocals == fs.vlocals && |fs'.code| == |fs1.code|
  {
    PopOne(fs, fs1);
    Discard(fs1)
  }

  /** The register of the initialiser becomes the variable's; a bare local variable is copied first. */
  function DeclMove(fs1: FState, ghost fs: FState): (fs2: FState)
    requires One(fs, fs1)
    ensures One(fs, fs2) && Top(fs2) == |fs.vlocals|
  {
    PopOne(fs, fs1);
    var dest := PushTemp(Pop(fs1));
    AddSame(dest, Ins(MOVE, Top(dest), Top(fs1)));
    if Top(dest) != Top(fs1) then Add(dest, Ins(MOVE, Top(dest), Top(fs1))) else dest
  }

  function DeclEnd(x: string, fs2: FState, ghost fs: FState): (fs': FState)
    requires Legal(fs) && One(fs, fs2)
    ensures Stmts(fs, fs') && fs'.vlocals == fs.vlocals + [Named(x)] && fs'.code == fs2.code
  {
    PopOne(fs, fs2);
    PushLocal(Pop(fs2), x)
  }

  lemma TestStmts(fs: FState, jz: FState)
    requires Legal(fs) && CondPushed(fs, jz)
    ensures Stmts(fs, jz) && Legal(jz)
  {
  }

  function IfEnd(t': FState, jz: FState, ghost fs: FState): (fs': FState)
    requires Legal(fs) && CondPushed(fs, jz) && Stmts(jz, t')
    ensures Stmts(fs, fs') && fs'.vlocals == t'.vlocals
  {
    Patch(t', Pos(jz), Pos(t') - Pos(jz))
  }

  function ElseJump(t': FState, ghost jz: FState, ghost fs: FState): (jmp: FState)
    requires Legal(fs) && CondPushed(fs, jz) && Stmts(jz, t')
    ensures Stmts(t', jmp) && jmp.vlocals == t'.vlocals && |jmp.code| == |t'.code| + 1 && Legal(jmp)
  {
    AddSame(t', Ins(JMP));
    assert t'.vlocals[0] == jz.vlocals[0] == fs.vlocals[0];
    Add(t', Ins(JMP))
  }

  function IfElseEnd(f': FState, jmp: FState, t': FState, jz: FState, ghost fs: FState): (fs': FState)
    requires Legal(fs) && CondPushed(fs, jz) && Stmts(jz, t') && Stmts(t', jmp) && |jmp.code| == |t'.code| + 1
    requires Stmts(jmp, f')
    ensures Stmts(fs, fs') && fs'.vlocals == f'.vlocals
  {
    Patch(Patch(f', Pos(jmp), Pos(f') - Pos(jmp)), Pos(jz), Pos(t') - Pos(jz) + 1)
  }

  function BeginLoop(fs: FState): (fs': FState)
    requires Legal(fs)
    ensures Legal(fs') && fs' == fs.(loops := fs.loops + 1)
  {
    fs.(loops := fs.loops + 1)
  }

  function WhileTest(fs1: FState, ghost fs: FState): (jz: FState)
    requires Legal(fs) && One(fs, fs1)
    ensures CondPushed(fs.(loops := fs.loops + 1), jz) && Legal(jz)
  {
    var jz := CondTest(fs1, fs);
    TestStmts(fs, jz);
    BeginLoop(jz)
  }

  /** Close the scope, jump back to the test, and let the test jump here. */
  function LoopBack(body: FState, jz: FState, fs: FState): (fs': FState)
    requires Legal(fs) && CondPushed(fs.(loops := fs.loops + 1), jz) && Stmts(jz, body)
    ensures Stmts(jz, fs') && fs'.vlocals == fs.vlocals && |fs'.code| == |body.code| + 1
    ensures fs'.breaks == body.breaks && fs'.conts == body.conts
  {
    var scoped := SetStackSize(body, |fs.vlocals|);
    AddSame(scoped, Ins(JMP, 0, Pos(fs) - Pos(body) - 1));
    var back := Add(scoped, Ins(JMP, 0, Pos(fs) - Pos(body) - 1));
    Patch(back, Pos(jz), Pos(back) - Pos(jz))
  }

  function WhileEnd(body: FState, jz: FState, fs: FState): (fs': FState)
    requires Legal(fs) && CondPushed(fs.(loops := fs.loops + 1), jz) && Stmts(jz, body)
    ensures Stmts(fs, fs') && fs'.vlocals == fs.vlocals
  {
    var back := LoopBack(body, jz, fs);
    EndLoop(back, |fs.breaks|, |fs.conts|, Pos(fs), fs)
  }

  function DoWhileEnd(fs1: FState, body: FState, fs: FState): (fs': FState)
    requires Legal(fs) && Stmts(fs.(loops := fs.loops + 1), body) && body.vlocals == fs.vlocals && One(body, fs1)
    ensures Stmts(fs, fs') && fs'.vlocals == fs.vlocals
  {
    var back := DoTest(fs1, body, fs);
    EndLoop(back, |fs.breaks|, |fs.conts|, Pos(body), fs)
  }

  /** Skip the jump back to the start when the condition is false. */
  function DoTest(fs1: FState, ghost body: FState, fs: FState): (back: FState)
    requires JumpsValid(body) && One(body, fs1)
    ensures Same(body, back) && |back.code| > 0
  {
    PopOne(body, fs1);
    AddSame(Pop(fs1), Ins(JZ, Top(fs1), 1));
    var jz := Add(Pop(fs1), Ins(JZ, Top(fs1), 1));
    AddSame(jz, Ins(JMP, 0, Pos(fs) - Pos(jz) - 1));
    Add(jz, Ins(JMP, 0, Pos(fs) - Pos(jz) - 1))
  }

  /** Resolve the continues, then the breaks, that were added since the loop began. */
  function EndLoop(back: FState, nbreaks: nat, nconts: nat, target: int, ghost fs: FState): (fs': FState)
    requires Legal(fs) && Stmts(fs.(loops := fs.loops + 1), back)
    requires nbreaks == |fs.breaks| && nconts == |fs.conts|
    ensures Stmts(fs, fs') && fs'.vlocals == back.vlocals
    ensures fs'.breaks == fs.breaks && fs'.conts == fs.conts
  {
    var c := ResolveConts(back, |back.conts| - nconts, target);
    ResolveBreaks(c, |c.breaks| - nbreaks).(loops := back.loops - 1)
  }

  function ResolveBreaks(fs: FState, n: nat): (fs': FState)
    requires n <= |fs.breaks| && JumpsValid(fs)
    ensures fs' == fs.(code := fs'.code, breaks := fs.breaks[..|fs.breaks| - n])
    ensures |fs'.code| == |fs.code|
    ensures forall j :: 0 <= j < |fs.code| ==>
      fs'.code[j]
        == if j in fs.breaks[|fs.breaks| - n..] then Instr(fs.code[j].op, 0, Pos(fs) - j, 0, 0) else fs.code[j]
    decreases n
  {
    if n == 0 then
      assert fs.breaks[..|fs.breaks|] == fs.breaks;
      fs
    else
      var last := |fs.breaks| - 1;
      var pos := fs.breaks[last];
      var fs1 := PatchJump(fs.(breaks := fs.breaks[..last]), pos, Pos(fs) - pos);
      assert fs.breaks[|fs.breaks| - n..] == fs1.breaks[|fs1.breaks| - (n - 1)..] + [pos];
      assert fs1.breaks[..|fs1.breaks| - (n - 1)] == fs.breaks[..|fs.breaks| - n];
      ResolveBreaks(fs1, n - 1)
  }

  function ResolveConts(fs: FState, n: nat, target: int): (fs': FState)
    requires n <= |fs.conts| && JumpsValid(fs)
    ensures fs' == fs.(code := fs'.code, conts := fs.conts[..|fs.conts| - n])
    ensures |fs'.code| == |fs.code|
    ensures forall j :: 0 <= j < |fs.code| ==>
      fs'.code[j] == if j in fs.conts[|fs.conts| - n..] then Instr(fs.code[j].op, 0, target - j, 0, 0) else fs.code[j]
    decreases n
  {
    if n == 0 then
      assert fs.conts[..|fs.conts|] == fs.conts;
      fs
    else
      var last := |fs.conts| - 1;
      var pos := fs.conts[last];
      var fs1 := PatchJump(fs.(conts := fs.conts[..last]), pos, target - pos);
      assert fs.conts[|fs.conts| - n..] == fs1.conts[|fs1.conts| - (n - 1)..] + [pos];
      assert fs1.conts[..|fs1.conts| - (n - 1)] == fs.conts[..|fs.conts| - n];
      ResolveConts(fs1, n - 1, target)
  }

  /** A break or continue outside a loop is a compile error. */
  function Jump(fs: FState, isBreak: bool): (fs': FState)
    requires Legal(fs)
    ensures Stmts(fs, fs') && fs'.vlocals == fs.vlocals
  {
    AddSame(fs, Ins(JMP, 0, UNRESOLVED));
    var jmp := Add(fs, Ins(JMP, 0, UNRESOLVED));
    jmp.(breaks := if isBreak then fs.breaks + [Pos(jmp)] else fs.breaks,
         conts := if isBreak then fs.conts else fs.conts + [Pos(jmp)],
         ok := fs.ok && fs.loops > 0)
  }

  function ReturnNull(fs: FState): (fs': FState)
    requires Legal(fs)
    ensures Stmts(fs, fs') && fs'.vlocals == fs.vlocals
  {
    AddSame(fs, Ins(RETURN, 0xFF, 0, |fs.vlocals|));
    Add(fs, Ins(RETURN, 0xFF, 0, |fs.vlocals|))
  }

  function ReturnEnd(fs1: FState, ghost fs: FState): (fs': FState)
    requires Legal(fs) && One(fs, fs1)
    ensures Stmts(fs, fs') && fs'.vlocals == fs.vlocals
  {
    PopOne(fs, fs1);
    AddSame(Pop(fs1), Ins(RETURN, 1, Top(fs1), |Pop(fs1).vlocals|));
    Add(Pop(fs1), Ins(RETURN, 1, Top(fs1), |Pop(fs1).vlocals|))
  }

  // --- whole programs

  const START := FState([], true, [Named("this"), Named("vargv")], [], 2, [], [], [], 0, true)

  function CompProgram(ss: seq<Stmt>): (fs': FState) {
    var body := SetStackSize(CompAll(ss, START), 2);
    SetStackSize(Add(body, Ins(RETURN, 0xFF)), 0)
  }
}
