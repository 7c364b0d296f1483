/** Where the optimiser changes meaning: the code that comes out, what it does, and exactly when. */
module Limits {
  import opened Bytecode
  import opened FuncState
  import opened Source
  import opened CodeGen
  import opened Simulation
  import opened Layout
  import opened ExprSim
  import opened StmtGen
  import opened Peephole
  import Stream

  const CMP_L := 3
  const SCOPE := [Named("this"), Named("vargv"), Named("a"), Named("b"), Named("x")]
  const ENTRY := FState([], true, SCOPE, [], 5, [], [], [], 0, true)

  // --- a bare variable as the condition of `?:`

  /** What the code from the frontier of `fs` on does, up to and including the conditional jump: where it goes,
      counted from its end, or what it raises. */
  ghost predicate JumpsAlike(cx: Context, a: seq<Instr>, b: seq<Instr>, st: State) {
    var x, y := Run(cx.(code := a), At(0, st), |a|), Run(cx.(code := b), At(0, st), |b|);
    if x.At? then y.At? && x.pc - |a| == y.pc - |b| else x == y
  }

  /** The code with the distance of its last jump filled in. */
  function Distance(code: seq<Instr>, d: int): seq<Instr>
    requires |code| > 0
  {
    code[|code| - 1 := Last(code).(a1 := d)]
  }

  /** `x ? ... : ...` where `x` is a local variable: the code emitted for the test goes where testing `x` goes,
      in every state and under every meaning of comparisons, exactly when the instruction before it is not a
      comparison that is still open to rewriting. */
  lemma BareConditionIff(x: string, fs: FState, scope: seq<Slot>, d: int)
    requires Start(fs, scope) && Ready(fs) && Lookup(scope, x) >= 0 && |scope| <= 256 && d > 0
    ensures |CondTest(CompE(Load(Name(x)), fs), fs).code| > Frontier(fs) && Frontier(fs) <= |fs.code|
    ensures var jz := CondTest(CompE(Load(Name(x)), fs), fs);
      (forall cx: Context, st: State ::
        JumpsAlike(cx, Distance(jz.code[Frontier(fs)..], d), fs.code[Frontier(fs)..] + [Ins(JZ, Lookup(scope, x), d)],
          st))
      <==> !LastIsCmp(fs)
  {
    hide *;
    var r := Lookup(scope, x);
    FrontierIn(fs);
    var plain := fs.code[Frontier(fs)..] + [Ins(JZ, r, d)];
    BareTest(x, fs, scope);
    Tested(fs, r, |scope|, d);
    var emitted := Distance(CondTest(CompE(Load(Name(x)), fs), fs).code[Frontier(fs)..], d);
    if LastIsCmp(fs) {
      var never := Context([], [],
        Prims((p: Prim, a: seq<Val>, w: World) => Done(Bool(false), w), (f: Val, a: seq<Val>, w: World) => CallThrew(w),
        (a: int, b: int) => false));
      Astray(never, Last(fs.code), r, d);
      assert !JumpsAlike(never, emitted, plain, State(map[r := Bool(true)], 0));
    } else {
      forall cx: Context, st: State ensures JumpsAlike(cx, emitted, plain, st) {
        Alike(cx, emitted, st);
      }
    }
  }

  lemma FrontierIn(fs: FState)
    ensures 0 <= Frontier(fs) <= |fs.code|
  {
  }

  lemma Alike(cx: Context, code: seq<Instr>, st: State)
    ensures JumpsAlike(cx, code, code, st)
  {
    hide Run;
  }

  /** The test is emitted right after what was there. */
  lemma BareTest(x: string, fs: FState, scope: seq<Slot>)
    requires Start(fs, scope) && Ready(fs) && Lookup(scope, x) >= 0
    ensures DestSafe(fs, |scope|) && Lookup(scope, x) < |scope|
    ensures CondTest(CompE(Load(Name(x)), fs), fs) == Add(fs, Ins(JZ, Lookup(scope, x)))
  {
    hide Shape, CompE, Add;
    LookupScope(fs, scope, x);
    var r := Lookup(scope, x);
    LocalCode(x, fs, r);
    var fs1 := PushTarget(fs, r);
    PopOne(fs, fs1);
    assert Pop(fs1) == fs;
  }

  /** It is merged with a comparison still open, whatever register that one writes. */
  lemma Tested(fs: FState, r: int, n: nat, d: int)
    requires DestSafe(fs, n) && 0 <= r < n <= 256
    ensures |Add(fs, Ins(JZ, r)).code| > Frontier(fs) && Frontier(fs) <= |fs.code|
    ensures LastIsCmp(fs) ==>
      |fs.code| > 0 && Last(fs.code).a0 != r && Last(fs.code).op == CMP && fs.code[Frontier(fs)..] == [Last(fs.code)]
    ensures Distance(Add(fs, Ins(JZ, r)).code[Frontier(fs)..], d)
      == if LastIsCmp(fs) then [Instr(JCMP, Last(fs.code).a1, d, Last(fs.code).a2, Last(fs.code).a3)]
         else fs.code[Frontier(fs)..] + [Ins(JZ, r, d)]
  {
    hide Add, DestSafe;
    if LastIsCmp(fs) {
      TestMerged(fs, r, n);
    } else {
      TestKept(fs, r);
      var j := Ins(JZ, r);
      assert (fs.code + [j])[Frontier(fs)..] == fs.code[Frontier(fs)..] + [j];
      assert (fs.code[Frontier(fs)..] + [j])[..|fs.code| - Frontier(fs)] == fs.code[Frontier(fs)..];
    }
  }

  lemma TestMerged(fs: FState, r: int, n: nat)
    requires DestSafe(fs, n) && 0 <= r < n <= 256 && LastIsCmp(fs)
    ensures var pi := Last(fs.code);
      && pi.a0 != r && Frontier(fs) == |fs.code| - 1
      && Add(fs, Ins(JZ, r)).code == fs.code[..|fs.code| - 1] + [Instr(JCMP, pi.a1, 0, pi.a2, pi.a3)]
  {
  }

  lemma TestKept(fs: FState, r: int)
    requires !LastIsCmp(fs)
    ensures Add(fs, Ins(JZ, r)).code == fs.code + [Ins(JZ, r)]
  {
  }

  /** With every comparison false, and the variable true. */
  lemma Astray(cx: Context, pi: Instr, r: int, d: int)
    requires pi.op == CMP && 0 <= r < 256 && pi.a0 != r && d > 0
    requires forall p, a, w :: cx.prims.apply(p, a, w) == Done(Bool(false), w)
    ensures !JumpsAlike(cx, [Instr(JCMP, pi.a1, d, pi.a2, pi.a3)], [pi] + [Ins(JZ, r, d)],
      State(map[r := Bool(true)], 0))
  {
    hide Run;
    MergedLeaves(cx, Instr(JCMP, pi.a1, d, pi.a2, pi.a3), State(map[r := Bool(true)], 0));
    PlainStays(cx, pi, r, d);
  }

  lemma MergedLeaves(cx: Context, i: Instr, st: State)
    requires i.op == JCMP && forall p, a, w :: cx.prims.apply(p, a, w) == Done(Bool(false), w)
    ensures Run(cx.(code := [i]), At(0, st), 1) == At(1 + i.a1, st)
  {
    var ca := cx.(code := [i]);
    assert Step(ca, At(0, st)) == At(1 + i.a1, st);
    hide Step;
    assert Run(ca, At(0, st), 1) == Run(ca, Step(ca, At(0, st)), 0);
  }

  lemma PlainStays(cx: Context, pi: Instr, r: int, d: int)
    requires pi.op == CMP && 0 <= r < 256 && pi.a0 != r
    requires forall p, a, w :: cx.prims.apply(p, a, w) == Done(Bool(false), w)
    ensures var st := State(map[r := Bool(true)], 0);
      Run(cx.(code := [pi] + [Ins(JZ, r, d)]), At(0, st), 2) == At(2, Store(st, pi.a0, Bool(false)))
  {
    var st := State(map[r := Bool(true)], 0);
    var cb := cx.(code := [pi] + [Ins(JZ, r, d)]);
    var st1 := Store(st, pi.a0, Bool(false));
    assert Step(cb, At(0, st)) == At(1, st1);
    NotTaken(cb, r, d, st1);
    hide Step;
    assert Run(cb, At(0, st), 2) == Run(cb, At(1, st1), 1) == Run(cb, At(2, st1), 0);
  }

  lemma NotTaken(cb: Context, r: int, d: int, st1: State)
    requires |cb.code| == 2 && cb.code[1] == Ins(JZ, r, d) && 0 <= r < 256 && Rd(st1.regs, r) == Bool(true)
    ensures Step(cb, At(1, st1)) == At(2, st1)
  {
  }

  // --- (a < b) == (x ? true : false)

  const LESS := Bin(CMP, CMP_L, Load(Name("a")), Load(Name("b")))
  const CHOICE := Cond(Load(Name("x")), Const(Bool(true)), Const(Bool(false)))
  const MIXED := Bin(EQ, 0, LESS, CHOICE)

  const TEST := Instr(JCMP, 3, 2, 2, CMP_L)
  const CODE := [TEST, Ins(LOADBOOL, 6, 1), Ins(JMP, 0, 1), Ins(LOADBOOL, 6, 0), Ins(EQ, 5, 6, 5)]

  lemma Names()
    ensures Lookup(SCOPE, "a") == 2 && Lookup(SCOPE, "b") == 3 && Lookup(SCOPE, "x") == 4
  {
    assert SCOPE[..4] == [Named("this"), Named("vargv"), Named("a"), Named("b")];
    assert SCOPE[..4][..3] == [Named("this"), Named("vargv"), Named("a")];
  }

  function Mid(code: seq<Instr>, opt: bool, temps: nat, size: int): FState {
    var t := seq(temps, k => 5 + k);
    FState(code, opt, SCOPE + seq(temps, _ => Temp), t, size, [], [], [], 0, true)
  }

  /** The comparison is still pending when the condition is tested. */
  lemma LessCode()
    ensures Ready(ENTRY) && CompE(LESS, ENTRY) == Mid([Ins(CMP, 5, 3, 2, CMP_L)], true, 1, 6)
  {
    Names();
    var fs1 := PushTarget(ENTRY, 2);
    var fs2 := PushTarget(fs1, 3);
    LocalCode("a", ENTRY, 2);
    LocalCode("b", fs1, 3);
    BinCode(LESS, ENTRY);
    hide CompE;
    assert Pop(Pop(fs2)) == ENTRY;
    assert SCOPE + [Temp] == SCOPE + seq(1, _ => Temp) && [5] == seq(1, k => 5 + k);
  }

  lemma LocalCode(x: string, fs: FState, r: int)
    requires Ready(fs) && Lookup(fs.vlocals, x) == r >= 0
    ensures CompE(Load(Name(x)), fs) == PushTarget(fs, r)
  {
    hide Lookup, Result, Add;
  }

  lemma BoolCode(v: bool, fs: FState)
    requires Ready(fs)
    ensures CompE(Const(Bool(v)), fs) == Result(fs, LOADBOOL, if v then 1 else 0)
  {
    hide Result;
  }

  /** A truth value loaded into a fresh register, then moved to the one below: the two are merged. */
  lemma BranchCode(fs: FState, v: bool)
    requires |fs.targets| > 0 && 0 <= Top(fs) == |fs.vlocals| - 1 < 250 && fs.ok
    requires fs.stacksize == |fs.vlocals| || fs.stacksize == |fs.vlocals| + 1
    ensures One(fs, Result(fs, LOADBOOL, if v then 1 else 0))
    ensures MoveInto(Result(fs, LOADBOOL, if v then 1 else 0), fs)
      == fs.(code := fs.code + [Ins(LOADBOOL, Top(fs), if v then 1 else 0)], opt := false,
        stacksize := |fs.vlocals| + 1)
  {
    var k := if v then 1 else 0;
    var one := Result(fs, LOADBOOL, k);
    BoolAdded(fs, k);
    PopOne(fs, one);
    hide Result, Add;
    MoveMerged(Pop(one), fs.code, |fs.vlocals|, k, Top(fs));
  }

  lemma BoolAdded(fs: FState, k: int)
    requires fs.stacksize == |fs.vlocals| || fs.stacksize == |fs.vlocals| + 1
    requires |fs.vlocals| < 251 && fs.ok
    ensures var one := Result(fs, LOADBOOL, k);
      && one.code == fs.code + [Ins(LOADBOOL, |fs.vlocals|, k)] && one.opt && one.stacksize == |fs.vlocals| + 1
      && one.lits == fs.lits && one.ok
  {
  }

  lemma MoveMerged(p: FState, code: seq<Instr>, r: int, k: int, dst: int)
    requires p.code == code + [Ins(LOADBOOL, r, k)] && p.opt && 0 <= r < 256 && 0 <= dst < 256
    ensures Add(p, Ins(MOVE, dst, r)) == p.(code := code + [Ins(LOADBOOL, dst, k)], opt := false)
  {
    assert p.code[..|p.code| - 1] == code;
  }

  /** The jump of `?:` replaces the comparison, whose own result is never computed. */
  lemma TestCode(fs: FState)
    requires fs == Mid([Ins(CMP, 5, 3, 2, CMP_L)], true, 1, 6)
    ensures Ready(fs) && One(fs, CompE(CHOICE.c, fs))
      && CondTest(CompE(CHOICE.c, fs), fs) == fs.(code := [Instr(JCMP, 3, 0, 2, CMP_L)])
  {
    hide CompE, Lookup, Add;
    Names();
    LastTemp(fs, "x");
    LocalCode("x", fs, 4);
    var fs1 := PushTarget(fs, 4);
    PopOne(fs, fs1);
    assert Pop(fs1) == fs;
    TestAdded(fs);
  }

  lemma TestAdded(fs: FState)
    requires fs.code == [Ins(CMP, 5, 3, 2, CMP_L)] && fs.opt
    ensures Add(fs, Ins(JZ, 4)) == fs.(code := [Instr(JCMP, 3, 0, 2, CMP_L)])
  {
  }

  lemma LastTemp(fs: FState, x: string)
    requires fs.vlocals == SCOPE + [Temp]
    ensures Lookup(fs.vlocals, x) == Lookup(SCOPE, x)
  {
    assert fs.vlocals[..|fs.vlocals| - 1] == SCOPE;
  }

  lemma ChoiceCode(fs: FState)
    requires fs == Mid([Ins(CMP, 5, 3, 2, CMP_L)], true, 1, 6)
    ensures Ready(fs) && CompE(CHOICE, fs) == Mid(CODE[..4], false, 2, 8)
  {
    hide CompE, CondTest, CondElse, CondEnd, MoveInto, Result, One, Ready;
    TestCode(fs);
    CondCode(CHOICE, fs);
    var b := CondStates(CHOICE, fs);
    var p := PushTemp(b.jz);
    assert |p.targets| == 2 && p.targets[1] == 6 && |p.vlocals| == 7;
    BoolCode(true, p);
    BranchCode(p, true);
    ElseCode(b.fs2, b.jz, fs);
    BoolCode(false, b.jmp);
    BranchCode(b.jmp, false);
    EndCode(b.fs3, b.jmp, b.jz, fs);
    var u := MoveInto(b.fs3, b.jmp);
    assert u.code == [Instr(JCMP, 3, 0, 2, CMP_L), Ins(LOADBOOL, 6, 1), Ins(JMP), Ins(LOADBOOL, 6, 0)];
    assert u.vlocals == SCOPE + seq(2, _ => Temp) && u.targets == seq(2, k => 5 + k);
  }

  lemma ElseCode(fs2: FState, jz: FState, fs: FState)
    requires Ready(fs) && CondPushed(fs, jz) && One(PushTemp(jz), fs2)
    ensures CondElse(fs2, jz, fs) == Add(MoveInto(fs2, PushTemp(jz)), Ins(JMP))
  {
    hide MoveInto, Add;
  }

  lemma EndCode(fs3: FState, jmp: FState, jz: FState, fs: FState)
    requires CondPushed(fs, jz) && ElsePushed(jz, jmp) && One(jmp, fs3)
    ensures var u := MoveInto(fs3, jmp);
      && |u.code| >= |jmp.code| > |jz.code| > 0
      && CondEnd(fs3, jmp, jz, fs) == Snooze(Patch(Patch(u, Pos(jmp), Pos(u) - Pos(jmp)), Pos(jz), Pos(jmp) - Pos(jz)))
  {
    hide MoveInto;
  }

  lemma MixedCode()
    ensures Ready(ENTRY) && CompE(MIXED, ENTRY) == Mid(CODE, true, 1, 8)
  {
    LessCode();
    var fs1 := CompE(LESS, ENTRY);
    ChoiceCode(fs1);
    BinCode(MIXED, ENTRY);
    var fs2 := CompE(CHOICE, fs1);
    hide CompE;
    PopTwo(ENTRY, fs1, fs2);
    assert Pop(Pop(fs2)) == fs2.(targets := [], vlocals := SCOPE);
    assert SCOPE + [Temp] == SCOPE + seq(1, _ => Temp) && [5] == seq(1, k => 5 + k);
    assert CODE == CODE[..4] + [CODE[4]];
  }

  /** Where `a < b` and `x` are true, the expression is true; its code leaves false in its register. */
  lemma ChoiceGoesWrong(e: Expr, fs: FState, prims: Prims, regs: Regs, w: World)
    requires e == MIXED && fs == ENTRY && Rd(regs, 4) == Bool(true) && Rd(regs, 5) == Null
    requires prims.apply(Prim(CMP, CMP_L, false), [Rd(regs, 2), Rd(regs, 3)], w) == Done(Bool(true), w)
    ensures !Safe(e, false, SCOPE)
    ensures Ready(fs) && CompE(e, fs).code == CODE && Top(CompE(e, fs)) == 5
    ensures EvalValue(prims, e, SCOPE, Window(regs, 0, 5), w) == EOk(Value(Bool(true)), Window(regs, 0, 5), w)
    ensures Reach(Context(CODE, [], prims), At(0, State(regs, w)),
      At(5, State(regs[6 := Bool(true)][5 := Bool(false)], w)))
  {
    hide *;
    MixedCode();
    MixedTop();
    Unsafe();
    MixedMeans(e, prims, regs, w);
    MixedRuns(prims, regs, w);
  }

  lemma MixedTop()
    ensures Mid(CODE, true, 1, 8).code == CODE && Top(Mid(CODE, true, 1, 8)) == 5
  {
  }

  lemma Unsafe()
    ensures !Safe(MIXED, false, SCOPE)
  {
    Names();
    assert BareLocal(CHOICE.c, SCOPE) && EndsCmp(LESS, false, SCOPE) && !Safe(CHOICE, true, SCOPE);
  }

  lemma MixedMeans(e: Expr, prims: Prims, regs: Regs, w: World)
    requires e == MIXED && Rd(regs, 4) == Bool(true)
    requires prims.apply(Prim(CMP, CMP_L, false), [Rd(regs, 2), Rd(regs, 3)], w) == Done(Bool(true), w)
    ensures EvalValue(prims, e, SCOPE, Window(regs, 0, 5), w) == EOk(Value(Bool(true)), Window(regs, 0, 5), w)
  {
    var env := Window(regs, 0, 5);
    Names();
    hide Lookup, Eval;
    LessMeans(prims, e.l, SCOPE, env, w);
    ChoiceMeans(prims, e.r, SCOPE, env, w);
    EqualMeans(prims, e, SCOPE, env, w);
  }

  lemma LessMeans(prims: Prims, e: Expr, scope: seq<Slot>, env: seq<Val>, w: World)
    requires e == LESS && |env| == 5 && Lookup(scope, "a") == 2 && Lookup(scope, "b") == 3
    requires prims.apply(Prim(CMP, CMP_L, false), [env[2], env[3]], w) == Done(Bool(true), w)
    ensures Eval(prims, e, scope, env, w) == EOk(Value(Bool(true)), env, w)
  {
    hide Lookup;
    assert Eval(prims, e.l, scope, env, w) == EOk(InLocal(2), env, w);
    assert Eval(prims, e.r, scope, env, w) == EOk(InLocal(3), env, w);
  }

  lemma ChoiceMeans(prims: Prims, e: Expr, scope: seq<Slot>, env: seq<Val>, w: World)
    requires e == CHOICE && |env| == 5 && Lookup(scope, "x") == 4 && env[4] == Bool(true)
    ensures Eval(prims, e, scope, env, w) == EOk(Value(Bool(true)), env, w)
  {
    hide Lookup;
    assert Eval(prims, e.c, scope, env, w) == EOk(InLocal(4), env, w);
  }

  lemma EqualMeans(prims: Prims, e: Expr, scope: seq<Slot>, env: seq<Val>, w: World)
    requires e.Bin? && e.op == EQ
      && Eval(prims, e.l, scope, env, w) == EOk(Value(Bool(true)), env, w) == Eval(prims, e.r, scope, env, w)
    ensures EvalValue(prims, e, scope, env, w) == EOk(Value(Bool(true)), env, w)
  {
  }

  lemma MixedRuns(prims: Prims, regs: Regs, w: World)
    requires Rd(regs, 5) == Null
    requires prims.apply(Prim(CMP, CMP_L, false), [Rd(regs, 2), Rd(regs, 3)], w) == Done(Bool(true), w)
    ensures Reach(Context(CODE, [], prims), At(0, State(regs, w)),
      At(5, State(regs[6 := Bool(true)][5 := Bool(false)], w)))
  {
    var cx := Context(CODE, [], prims);
    var c0 := At(0, State(regs, w));
    FirstSteps(cx, regs, w);
    LastSteps(cx, regs, w);
    hide Run, Step;
    RunAdd(cx, c0, 2, 2);
    assert Run(cx, c0, 4) == At(5, State(regs[6 := Bool(true)][5 := Bool(false)], w));
  }

  lemma FirstSteps(cx: Context, regs: Regs, w: World)
    requires |cx.code| == 5 && cx.code[0] == TEST && cx.code[1] == Ins(LOADBOOL, 6, 1)
    requires cx.prims.apply(Prim(CMP, CMP_L, false), [Rd(regs, 2), Rd(regs, 3)], w) == Done(Bool(true), w)
    ensures Run(cx, At(0, State(regs, w)), 2) == At(2, State(regs[6 := Bool(true)], w))
  {
    var st := State(regs, w);
    assert Step(cx, At(0, st)) == At(1, st);
    assert Step(cx, At(1, st)) == At(2, State(regs[6 := Bool(true)], w));
    hide Step;
    assert Run(cx, At(0, st), 2) == Run(cx, At(1, st), 1) == Run(cx, Step(cx, At(1, st)), 0);
  }

  lemma LastSteps(cx: Context, regs: Regs, w: World)
    requires |cx.code| == 5 && cx.code[2] == Ins(JMP, 0, 1) && cx.code[4] == Ins(EQ, 5, 6, 5) && Rd(regs, 5) == Null
    ensures Run(cx, At(2, State(regs[6 := Bool(true)], w)), 2)
      == At(5, State(regs[6 := Bool(true)][5 := Bool(false)], w))
  {
    var st := State(regs[6 := Bool(true)], w);
    assert Rd(st.regs, 5) == Null;
    assert Step(cx, At(2, st)) == At(4, st);
    assert Step(cx, At(4, st)) == At(5, State(regs[6 := Bool(true)][5 := Bool(false)], w));
    hide Step;
    assert Run(cx, At(2, st), 2) == Run(cx, At(4, st), 1) == Run(cx, Step(cx, At(4, st)), 0);
  }

  // --- var p = e, q = p

  /** One declarator of a `var` statement. Between two of them nothing closes the last instruction to rewriting. */
  function Declare(x: string, e: Expr, fs: FState): (fs': FState)
    requires Legal(fs)
    ensures Stmts(fs, fs') && fs'.vlocals == fs.vlocals + [Named(x)]
  {
    hide CompE, DeclMove, Stmts;
    DeclEnd(x, DeclMove(CompE(e, fs), fs), fs)
  }

  /** The result of `e` can still be rewritten, and is in the register of `p`. */
  predicate Fresh(fs1: FState, r: int) {
    fs1.opt && |fs1.code| > 0 && MoveFuses(Last(fs1.code).op) && Last(fs1.code).a0 == r
  }

  /** From the frontier on, `code` does what was there and then a copy of `r` into the next register, in every
      state and under every meaning of the effects. */
  ghost predicate Copies(fs1: FState, code: seq<Instr>, r: int) {
    var tail, plain := if Frontier(fs1) <= |code| then code[Frontier(fs1)..] else [],
      fs1.code[Frontier(fs1)..] + [Ins(MOVE, r + 1, r)];
    && Stream.AllStraight(tail) && Stream.AllStraight(plain)
    && forall cx: Context, st: State :: Stream.RunAll(cx, tail, st) == Stream.RunAll(cx, plain, st)
  }

  /** When the second variable takes its value from the first, the operation that computed the first is
      redirected to the second exactly if it is one of those that merge with a move and is still open to
      rewriting; and the second declaration copies the first variable exactly if it is not. */
  lemma SecondVariableIff(p: string, q: string, e: Expr, fs: FState)
    requires Legal(fs) && |fs.vlocals| + 1 < 256
    ensures var fs1 := Declare(p, e, fs);
      Legal(fs1) && (Declare(q, Load(Name(p)), fs1).code
        == if Fresh(fs1, |fs.vlocals|) then fs1.code[..|fs1.code| - 1] + [Last(fs1.code).(a0 := |fs.vlocals| + 1)]
           else Add(fs1, Ins(MOVE, |fs.vlocals| + 1, |fs.vlocals|)).code)
    ensures var fs1 := Declare(p, e, fs);
      Copies(fs1, Declare(q, Load(Name(p)), fs1).code, |fs.vlocals|) <==> !Fresh(fs1, |fs.vlocals|)
  {
    hide *;
    var fs1 := Declare(p, e, fs);
    StmtsLegal(fs, fs1);
    Copy(p, q, fs1, |fs.vlocals|);
    RedirectIff(fs1, |fs.vlocals|);
  }

  lemma Copy(p: string, q: string, fs: FState, r: int)
    requires Legal(fs) && 0 <= r == |fs.vlocals| - 1 && fs.vlocals[r] == Named(p)
    ensures Declare(q, Load(Name(p)), fs).code == Add(fs, Ins(MOVE, r + 1, r)).code
  {
    hide CompE, Add, Stmts;
    LocalCode(p, fs, r);
    var fs1 := PushTarget(fs, r);
    PopOne(fs, fs1);
    assert Pop(fs1) == fs;
    SameCode(PushTemp(fs), fs, Ins(MOVE, r + 1, r));
  }

  /** Adding an instruction looks at the code and at what is a local variable. */
  lemma SameCode(a: FState, b: FState, i: Instr)
    requires i.op == MOVE && a.code == b.code && a.opt == b.opt
    ensures Add(a, i).code == Add(b, i).code
  {
  }

  lemma RedirectIff(fs1: FState, r: int)
    requires 0 <= r < 255
    ensures Fresh(fs1, r) ==>
      Add(fs1, Ins(MOVE, r + 1, r)).code == fs1.code[..|fs1.code| - 1] + [Last(fs1.code).(a0 := r + 1)]
    ensures Copies(fs1, Add(fs1, Ins(MOVE, r + 1, r)).code, r) <==> !Fresh(fs1, r)
  {
    hide Stream.KeepsLocal, Copies;
    if Fresh(fs1, r) {
      Redirected(fs1, r);
    } else {
      Copied(fs1, r);
    }
  }

  lemma Redirected(fs1: FState, r: int)
    requires 0 <= r < 255 && Fresh(fs1, r)
    ensures !Copies(fs1, Add(fs1, Ins(MOVE, r + 1, r)).code, r)
  {
    hide Stream.KeepsLocal, Copies, Effect, Stream.AgreeBut;
    var pi := Last(fs1.code);
    Stream.MoveMergeIff(pi, r + 1, false);
    var code := Add(fs1, Ins(MOVE, r + 1, r)).code;
    assert code == fs1.code[..|fs1.code| - 1] + [pi.(a0 := r + 1)];
    var cx: Context, st: State :| !Stream.KeepsLocal(cx, pi, r + 1, st);
    var tail, plain := code[Frontier(fs1)..], fs1.code[Frontier(fs1)..] + [Ins(MOVE, r + 1, r)];
    assert tail == [pi.(a0 := r + 1)] && plain == [pi, Ins(MOVE, r + 1, r)];
    OneOrTwo(cx, pi.(a0 := r + 1), pi, Ins(MOVE, r + 1, r), st);
    Differ(cx, pi, r + 1, st);
    NotCopies(fs1, code, r, cx, st);
  }

  lemma NotCopies(fs1: FState, code: seq<Instr>, r: int, cx: Context, st: State)
    requires Frontier(fs1) <= |code| && Stream.AllStraight(code[Frontier(fs1)..])
      && Stream.AllStraight(fs1.code[Frontier(fs1)..] + [Ins(MOVE, r + 1, r)])
    requires Stream.RunAll(cx, code[Frontier(fs1)..], st)
      != Stream.RunAll(cx, fs1.code[Frontier(fs1)..] + [Ins(MOVE, r + 1, r)], st)
    ensures !Copies(fs1, code, r)
  {
    hide Stream.RunAll;
  }

  lemma Differ(cx: Context, pi: Instr, dst: int, st: State)
    requires MoveFuses(pi.op) && !Stream.KeepsLocal(cx, pi, dst, st)
    ensures Effect(cx, pi.(a0 := dst), st) != Then(cx, Effect(cx, pi, st), Ins(MOVE, dst, pi.a0))
  {
    hide Effect;
  }

  lemma OneOrTwo(cx: Context, i: Instr, pi: Instr, mv: Instr, st: State)
    requires Straight(i.op) && Straight(pi.op) && mv.op == MOVE
    ensures Stream.AllStraight([i]) && Stream.RunAll(cx, [i], st) == Effect(cx, i, st)
    ensures Stream.AllStraight([pi, mv]) && Stream.RunAll(cx, [pi, mv], st) == Then(cx, Effect(cx, pi, st), mv)
    ensures Stream.AllStraight([mv]) && Stream.RunAll(cx, [mv], st) == Effect(cx, mv, st)
  {
    hide Effect;
    assert [i][..0] == [] && [pi][..0] == [] && [mv][..0] == [];
    assert [pi, mv][..1] == [pi];
    assert Stream.RunAll(cx, [pi], st) == Effect(cx, pi, st);
  }

  lemma Copied(fs1: FState, r: int)
    requires 0 <= r < 255 && !Fresh(fs1, r)
    ensures Copies(fs1, Add(fs1, Ins(MOVE, r + 1, r)).code, r)
  {
    var mv := Ins(MOVE, r + 1, r);
    var code := Add(fs1, mv).code;
    if fs1.opt && |fs1.code| > 0 && Last(fs1.code).op == MOVE {
      var pi := Last(fs1.code);
      var dm := Instr(DMOVE, pi.a0, pi.a1, mv.a0, Byte(mv.a1));
      assert code == fs1.code[..|fs1.code| - 1] + [dm];
      assert code[Frontier(fs1)..] == [dm] && fs1.code[Frontier(fs1)..] + [mv] == [pi, mv];
      forall cx: Context, st: State ensures Stream.RunAll(cx, [dm], st) == Stream.RunAll(cx, [pi, mv], st) {
        OneOrTwo(cx, dm, pi, mv, st);
        MovesTwice(cx, pi, mv, st);
      }
      OneOrTwo(Context([], [], Prims((p: Prim, a: seq<Val>, w: World) => Threw(w),
        (f: Val, a: seq<Val>, w: World) => CallThrew(w), (a: int, b: int) => false)), dm, pi, mv, State(map[], 0));
    } else {
      Appended(fs1, r);
      assert (fs1.code + [mv])[Frontier(fs1)..] == fs1.code[Frontier(fs1)..] + [mv];
    }
  }

  lemma Appended(fs1: FState, r: int)
    requires 0 <= r < 255 && !Fresh(fs1, r) && !(fs1.opt && |fs1.code| > 0 && Last(fs1.code).op == MOVE)
    ensures Add(fs1, Ins(MOVE, r + 1, r)).code == fs1.code + [Ins(MOVE, r + 1, r)]
    ensures Stream.AllStraight(fs1.code[Frontier(fs1)..] + [Ins(MOVE, r + 1, r)])
  {
  }

  lemma MovesTwice(cx: Context, pi: Instr, mv: Instr, st: State)
    requires pi.op == MOVE && mv.op == MOVE && 0 <= mv.a1 < 256
    ensures Effect(cx, Instr(DMOVE, pi.a0, pi.a1, mv.a0, Byte(mv.a1)), st) == Then(cx, Effect(cx, pi, st), mv)
  {
  }

  /** var p = k, q = p: in every run the register of `p` keeps what it held. */
  lemma IntegerGoesToSecond(p: string, q: string, k: int, fs: FState, cx: Context, st: State)
    requires Legal(fs) && |fs.vlocals| + 1 < 256 && Immediate(k)
    ensures var fs1 := Declare(p, Const(Int(k)), fs);
      Legal(fs1) && Declare(q, Load(Name(p)), fs1).code == fs.code + [Ins(LOADINT, |fs.vlocals| + 1, k)]
    ensures Effect(cx, Ins(LOADINT, |fs.vlocals| + 1, k), st).Ok?
    ensures Rd(Effect(cx, Ins(LOADINT, |fs.vlocals| + 1, k), st).st.regs, |fs.vlocals|) == Rd(st.regs, |fs.vlocals|)
  {
    hide Legal, Stmts, Stream.KeepsLocal, Copies, Effect, Declare;
    SecondVariableIff(p, q, Const(Int(k)), fs);
    IntegerCode(p, k, fs);
    FirstKept(cx, |fs.vlocals|, k, st);
  }

  lemma FirstKept(cx: Context, n: nat, k: int, st: State)
    ensures Effect(cx, Ins(LOADINT, n + 1, k), st).Ok?
    ensures Rd(Effect(cx, Ins(LOADINT, n + 1, k), st).st.regs, n) == Rd(st.regs, n)
  {
  }

  lemma IntegerCode(p: string, k: int, fs: FState)
    requires Legal(fs) && |fs.vlocals| < 256 && Immediate(k)
    ensures var fs1 := Declare(p, Const(Int(k)), fs); fs1.code == fs.code + [Ins(LOADINT, |fs.vlocals|, k)] && fs1.opt
  {
    hide Stmts, Result;
    LoadCode(fs, k);
    var fs1 := Result(fs, LOADINT, k);
    PopOne(fs, fs1);
  }

  lemma LoadCode(fs: FState, k: int)
    ensures var fs1 := Result(fs, LOADINT, k); fs1.code == fs.code + [Ins(LOADINT, |fs.vlocals|, k)] && fs1.opt
  {
  }

  // --- running out of registers

  /** While nothing was refused, at most 256 registers were reserved. A register is refused exactly if its number
      does not fit a byte: so 255 is handed out, though as a destination it means "do not store". */
  lemma RegisterRefusedIff(fs: FState)
    requires fs.ok && |fs.vlocals| <= fs.stacksize <= 256
    ensures Top(PushTemp(fs)) == |fs.vlocals| && (PushTemp(fs).ok <==> |fs.vlocals| < 256)
    ensures PushTemp(fs).ok ==> |PushTemp(fs).vlocals| <= PushTemp(fs).stacksize <= 256
    ensures PushTemp(fs).ok && Top(PushTemp(fs)) == NO_TARGET <==> |fs.vlocals| == 255
  {
  }

  ghost predicate SetArrives(i: Instr) {
    forall cx: Context, st: State :: i.op == SET && Effect(cx, i, st).Ok? ==>
      Rd(Effect(cx, i, st).st.regs, i.a0) == Rd(st.regs, i.a3)
  }

  /** The value of an assignment to a field arrives in a register other than that of the value exactly if its
      number is not 255. */
  lemma SetArrivesIff(i: Instr)
    requires i.op == SET && i.a0 != i.a3
    ensures SetArrives(i) <==> i.a0 != NO_TARGET
    ensures i.a0 == NO_TARGET ==> forall cx: Context, st: State :: Effect(cx, i, st).Ok? ==>
      Effect(cx, i, st).st.regs == st.regs
  {
    if i.a0 == NO_TARGET {
      var cx := Context([], [], Prims((p: Prim, a: seq<Val>, w: World) => Done(Null, w),
        (f: Val, a: seq<Val>, w: World) => CallThrew(w), (a: int, b: int) => false));
      var st := State(map[i.a3 := Bool(true)], 0);
      assert Effect(cx, i, st).Ok? && Rd(Effect(cx, i, st).st.regs, i.a0) == Null;
    }
  }

  /** `o[k] = v` of three variables, where 255 registers are in use: the value goes to register 255, nothing is
      refused, and the value does not arrive. */
  lemma LastRegister(e: Expr, o: string, k: string, v: string, fs: FState)
    requires e == Assign(Field(Load(Name(o)), Load(Name(k))), Load(Name(v)))
    requires Ready(fs) && fs.ok && |fs.vlocals| == 255 <= fs.stacksize <= 256
    requires Lookup(fs.vlocals, o) >= 0 && Lookup(fs.vlocals, k) >= 0 && Lookup(fs.vlocals, v) >= 0
    ensures var fs' := CompE(e, fs);
      fs'.ok && Top(fs') == 255 && |fs'.code| > 0 && Last(fs'.code).op == SET && Last(fs'.code).a0 == 255
        && !SetArrives(Last(fs'.code))
  {
    hide Lookup, Add, CompE, SetArrives, One, Result3, Ready;
    var ro, rk, rv := Lookup(fs.vlocals, o), Lookup(fs.vlocals, k), Lookup(fs.vlocals, v);
    InRange(fs, o);
    InRange(fs, k);
    InRange(fs, v);
    var mid := PushTarget(fs, ro);
    var fs2 := PushTarget(mid, rk);
    var fs3 := PushTarget(fs2, rv);
    Pieces(e, o, k, v, fs, ro, rk, rv);
    SetEnd(fs, mid, fs2, fs3, ro, rk, rv);
    SetArrivesIff(Ins(SET, 255, ro, rk, rv));
  }

  lemma InRange(fs: FState, x: string)
    ensures Lookup(fs.vlocals, x) < |fs.vlocals|
    ensures Lookup(fs.vlocals, x) >= 0 ==> IsLocal(fs.vlocals, Lookup(fs.vlocals, x))
  {
  }

  lemma Pieces(e: Expr, o: string, k: string, v: string, fs: FState, ro: int, rk: int, rv: int)
    requires e == Assign(Field(Load(Name(o)), Load(Name(k))), Load(Name(v))) && Ready(fs)
    requires Lookup(fs.vlocals, o) == ro >= 0 && Lookup(fs.vlocals, k) == rk >= 0 && Lookup(fs.vlocals, v) == rv >= 0
    ensures var mid := PushTarget(fs, ro); var fs2 := PushTarget(mid, rk); var fs3 := PushTarget(fs2, rv);
      && One(fs, mid) && One(mid, fs2) && One(fs2, fs3) && CompE(e, fs) == Result3(SET, 0, mid, fs2, fs3, fs)
  {
    hide Lookup, Add, One, Result3, PlacePushed;
    var mid := PushTarget(fs, ro);
    var fs2 := PushTarget(mid, rk);
    LocalCode(o, fs, ro);
    LocalCode(k, mid, rk);
    LocalCode(v, fs2, rv);
    PlaceCode(e.p, fs, mid, fs2);
  }

  lemma PlaceCode(p: Place, fs: FState, mid: FState, fs2: FState)
    requires Ready(fs) && p.Field? && mid == CompE(p.o, fs) && Ready(mid) && fs2 == CompE(p.k, mid)
    ensures CompPlace(p, fs) == FieldCode(mid, fs2)
  {
    hide CompE;
  }

  lemma SetEnd(fs: FState, mid: FState, fs2: FState, fs3: FState, ro: int, rk: int, rv: int)
    requires fs.ok && |fs.vlocals| == 255 <= fs.stacksize <= 256
    requires mid == PushTarget(fs, ro) && fs2 == PushTarget(mid, rk) && fs3 == PushTarget(fs2, rv)
    requires One(fs, mid) && One(mid, fs2) && One(fs2, fs3) && 0 <= rv < 255 && 0 <= ro < 255 && 0 <= rk < 255
    requires IsLocal(fs.vlocals, ro) && IsLocal(fs.vlocals, rk) && IsLocal(fs.vlocals, rv)
    ensures var fs' := Result3(SET, 0, mid, fs2, fs3, fs);
      && fs'.ok && Top(fs') == 255 && |fs'.code| > 0 && Last(fs'.code) == Ins(SET, 255, ro, rk, rv)
  {
    PopThree(fs, mid, fs2, fs3);
    assert Pop(Pop(Pop(fs3))) == fs;
    LastAdded(fs, ro, rk, rv);
  }

  lemma LastAdded(fs: FState, ro: int, rk: int, rv: int)
    requires fs.ok && |fs.vlocals| == 255 <= fs.stacksize <= 256 && 0 <= rv < 255
    ensures var fs' := Result(fs, SET, ro, rk, rv);
      fs'.ok && |fs'.code| > 0 && Last(fs'.code) == Ins(SET, 255, ro, rk, rv)
  {
  }
}
