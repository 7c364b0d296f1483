/** What the recursive-descent compiler emits for each construct, as a function of the `FState` it starts
    from. Expressions leave one more target on the stack of targets: the register of a local variable,
    or the next free register. */
module CodeGen {
  import opened Bytecode
  import opened FuncState
  import opened Source

  /** Register 0 holds `this`. */
  predicate Ready(fs: FState) {
    |fs.vlocals| > 0 && fs.vlocals[0].Named?
  }

  /** Nothing emitted is lost, no loop bookkeeping changes, and the only possible error is running out of
      registers. */
  predicate Grown(fs: FState, fs': FState) {
    && |fs.code| <= |fs'.code|
    && fs.lits <= fs'.lits
    && fs.stacksize <= fs'.stacksize
    && fs'.breaks == fs.breaks && fs'.conts == fs.conts && fs'.loops == fs.loops
    && (fs'.ok ==> fs.ok) && (fs.ok && fs'.stacksize <= MAX_FUNC_STACKSIZE ==> fs'.ok)
  }

  predicate Pushed(fs: FState, fs': FState) {
    && |fs'.targets| > 0
    && fs'.targets == fs.targets + [Top(fs')]
    && (if Top(fs') == |fs.vlocals| then fs'.vlocals == fs.vlocals + [Temp]
        else fs'.vlocals == fs.vlocals && IsLocal(fs.vlocals, Top(fs')))
  }

  predicate One(fs: FState, fs': FState) {
    Grown(fs, fs') && Pushed(fs, fs')
  }

  predicate Same(fs: FState, fs': FState) {
    Grown(fs, fs') && fs'.targets == fs.targets && fs'.vlocals == fs.vlocals
  }

  lemma PopOne(fs: FState, fs': FState)
    requires Pushed(fs, fs')
    ensures 0 <= Top(fs') < |fs'.vlocals|
    ensures Pop(fs') == fs'.(targets := fs.targets, vlocals := fs.vlocals)
  {
  }

  lemma AddSame(fs: FState, i: Instr)
    ensures Same(fs, Add(fs, i)) && |Add(fs, i).code| > 0
    ensures |Add(fs, i).code| <= |fs.code| + 1
  {
  }

  /** Jumps are never merged with what precedes them. */
  lemma AddAppends(fs: FState, i: Instr)
    requires i.op in {JMP, AND, OR, RETURN}
    ensures Add(fs, i) == fs.(code := fs.code + [i], opt := true)
  {
  }

  /** Emit `op` into a fresh register. */
  function Result(fs: FState, op: Op, a1: int := 0, a2: int := 0, a3: int := 0): (fs': FState)
    ensures One(fs, fs') && Top(fs') == |fs.vlocals|
    ensures |fs'.code| > 0 && |fs'.targets| > 0
  {
    AddSame(PushTemp(fs), Ins(op, |fs.vlocals|, a1, a2, a3));
    Add(PushTemp(fs), Ins(op, |fs.vlocals|, a1, a2, a3))
  }

  function LoadLiteral(fs: FState, v: Val): (fs': FState)
    ensures One(fs, fs') && Top(fs') == |fs.vlocals|
  {
    Result(AddLiteral(fs, v), LOAD, IndexOf(fs.lits, v))
  }

  /** Integers that fit 32 bits are immediate operands; the most negative one is not taken to fit. */
  predicate Immediate(i: int) {
    -0x8000_0000 < i <= 0x7fff_ffff
  }

  function CompConst(v: Val, fs: FState): (fs': FState)
    ensures One(fs, fs') && Top(fs') == |fs.vlocals|
  {
    match v
    case Null => Result(fs, LOADNULLS, 1)
    case Int(i) => if Immediate(i) then Result(fs, LOADINT, i) else LoadLiteral(fs, v)
    case Bool(b) => Result(fs, LOADBOOL, if b then 1 else 0)
    case Float(bits) => Result(fs, LOADFLOAT, bits)
    case _ => LoadLiteral(fs, v)
  }

  /** The code for a place: its register is a target, or its object and key are. */
  datatype PlaceCode = LocalCode(fs: FState) | FieldCode(mid: FState, fs: FState)

  predicate PlacePushed(fs: FState, pc: PlaceCode) {
    match pc
    case LocalCode(fs1) => One(fs, fs1) && IsLocal(fs.vlocals, Top(fs1)) && fs1 == PushTarget(fs, Top(fs1))
    case FieldCode(mid, fs2) => One(fs, mid) && One(mid, fs2)
  }

  function MoveUnless(fs: FState, dst: int, src: int): (fs': FState)
    ensures Same(fs, fs')
    ensures |fs'.code| <= |fs.code| + 1
  {
    AddSame(fs, Ins(MOVE, dst, src));
    if dst != src then Add(fs, Ins(MOVE, dst, src)) else fs
  }

  lemma OneReady(fs: FState, fs': FState)
    requires Ready(fs) && (One(fs, fs') || Same(fs, fs'))
    ensures Ready(fs')
  {
  }

  lemma OneSame(fs: FState, a: FState, b: FState)
    requires One(fs, a) && Same(a, b)
    ensures One(fs, b) && Top(b) == Top(a)
  {
  }

  function CompE(e: Expr, fs: FState): (fs': FState)
    requires Ready(fs)
    ensures One(fs, fs')
    decreases e, 1
  {
    hide *;
    match e
    case Const(v) => CompConst(v, fs)
    case Load(p) => LoadEnd(CompPlace(p, fs), fs)
    case Unary(op, e1) => UnaryEnd(op, CompE(e1, fs), fs)
    case Bin(op, imm, l, r) =>
      var fs1 := CompE(l, fs);
      OneReady(fs, fs1);
      BinEnd(op, imm, CompE(r, fs1), fs1, fs)
    case And(l, r) =>
      var test := Circuit(AND, CompE(l, fs), fs);
      TestReady(test, fs);
      CircuitEnd(CompE(r, test.after), test, fs)
    case Or(l, r) =>
      var test := Circuit(OR, CompE(l, fs), fs);
      TestReady(test, fs);
      CircuitEnd(CompE(r, test.after), test, fs)
    case Cond(c, t, f) =>
      var jz := CondTest(CompE(c, fs), fs);
      CondReady(jz, fs);
      var jmp := CondElse(CompE(t, PushTemp(jz)), jz, fs);
      CondEnd(CompE(f, jmp), jmp, jz, fs)
    case Assign(p, e1) =>
      var pc := CompPlace(p, fs);
      AssignEnd(CompE(e1, pc.fs), pc, fs)
    case OpAssign(op, p, e1) =>
      var pc := CompPlace(p, fs);
      OpAssignEnd(op, CompE(e1, pc.fs), pc, fs)
    case IncDec(post, diff, p) => IncDecEnd(post, diff, CompPlace(p, fs), fs)
    case Array(es) =>
      var fs1 := Result(fs, NEWOBJ, 0, 0, NOT_ARRAY);
      OneReady(fs, fs1);
      ArrayEnd(CompElements(es, fs1), fs1, |es|, fs)
    case Invoke(p, args) =>
      var mc := CompMethod(CompPlace(p, fs), fs);
      MethodReady(mc, fs);
      CompCall(args, mc, fs)
    case CallValue(f, args) =>
      var mc := CompFunction(CompE(f, fs), fs);
      MethodReady(mc, fs);
      CompCall(args, mc, fs)
  }

  function LoadEnd(pc: PlaceCode, ghost fs: FState): (fs': FState)
    requires PlacePushed(fs, pc)
    ensures One(fs, fs')
  {
    match pc
    case LocalCode(fs1) => fs1
    case FieldCode(mid, fs2) => Result2(GET, 0, mid, fs2, fs)
  }

  function UnaryEnd(op: Op, fs1: FState, ghost fs: FState): (fs': FState)
    requires One(fs, fs1)
    ensures One(fs, fs') && Top(fs') == |fs.vlocals|
  {
    PopOne(fs, fs1);
    Result(Pop(fs1), op, Top(fs1))
  }

  lemma PopTwo(fs: FState, fs1: FState, fs2: FState)
    requires One(fs, fs1) && One(fs1, fs2)
    ensures 0 <= Top(fs2) < |fs2.vlocals|
    ensures Pop(fs2) == fs2.(targets := fs1.targets, vlocals := fs1.vlocals)
    ensures 0 <= Top(Pop(fs2)) < |Pop(fs2).vlocals| && Top(Pop(fs2)) == Top(fs1)
    ensures Pop(Pop(fs2)) == fs2.(targets := fs.targets, vlocals := fs.vlocals)
  {
    PopOne(fs1, fs2);
    PopOne(fs, Pop(fs2));
  }

  function BinEnd(op: Op, imm: int, fs2: FState, ghost fs1: FState, ghost fs: FState): (fs': FState)
    requires One(fs, fs1) && One(fs1, fs2)
    ensures One(fs, fs') && Top(fs') == |fs.vlocals|
  {
    PopTwo(fs, fs1, fs2);
    Result(Pop(Pop(fs2)), op, Top(fs2), Top(Pop(fs2)), imm)
  }

  /** Pop a result and move it to the register now on top. */
  function MoveInto(fs2: FState, ghost before: FState): (m: FState)
    requires |before.targets| > 0 && One(before, fs2)
    ensures Same(before, m)
  {
    PopOne(before, fs2);
    MoveUnless(Pop(fs2), Top(Pop(fs2)), Top(fs2))
  }

  lemma SnoozeOne(fs: FState, fs': FState)
    requires One(fs, fs')
    ensures One(fs, Snooze(fs'))
  {
  }

  /** A short-circuit test: the jump's position, and the state after the first operand was copied. */
  datatype Test = Test(jump: FState, after: FState)

  predicate TestPushed(fs: FState, test: Test) {
    One(fs, test.jump) && Top(test.jump) == |fs.vlocals| && Same(test.jump, test.after) && |test.jump.code| > 0
  }

  /** The operation that short-circuits: it jumps to the end when the first operand decides. */
  function Circuit(op: Op, fs1: FState, ghost fs: FState): (test: Test)
    requires One(fs, fs1)
    ensures TestPushed(fs, test)
  {
    PopOne(fs, fs1);
    var jump := Result(Pop(fs1), op, 0, Top(fs1), 0);
    Test(jump, MoveUnless(jump, Top(jump), Top(fs1)))
  }

  lemma TestReady(test: Test, fs: FState)
    requires Ready(fs) && TestPushed(fs, test)
    ensures Ready(test.after)
  {
  }

  function CircuitEnd(fs3: FState, test: Test, ghost fs: FState): (fs': FState)
    requires TestPushed(fs, test) && One(test.after, fs3)
    ensures One(fs, fs') && Top(fs') == |fs.vlocals|
  {
    SnoozeOne(test.after, fs3);
    var fs4 := MoveInto(Snooze(fs3), test.after);
    Patch(Snooze(fs4), Pos(test.jump), Pos(fs4) - Pos(test.jump))
  }

  predicate CondPushed(fs: FState, jz: FState) {
    Same(fs, jz) && |jz.code| > 0
  }

  function CondTest(fs1: FState, ghost fs: FState): (fs': FState)
    requires One(fs, fs1)
    ensures CondPushed(fs, fs')
  {
    PopOne(fs, fs1);
    AddSame(Pop(fs1), Ins(JZ, Top(fs1)));
    Add(Pop(fs1), Ins(JZ, Top(fs1)))
  }

  lemma CondReady(jz: FState, fs: FState)
    requires Ready(fs) && CondPushed(fs, jz)
    ensures Ready(PushTemp(jz))
  {
  }

  predicate ElsePushed(jz: FState, jmp: FState) {
    Same(PushTemp(jz), jmp) && |jmp.code| > |jz.code|
  }

  /** After the first branch of `?:`: move its result to the common register, jump over the second. */
  function CondElse(fs2: FState, ghost jz: FState, ghost fs: FState): (fs': FState)
    requires Ready(fs) && CondPushed(fs, jz) && One(PushTemp(jz), fs2)
    ensures ElsePushed(jz, fs') && Ready(fs')
  {
    var moved := MoveInto(fs2, PushTemp(jz));
    AddSame(moved, Ins(JMP));
    Add(moved, Ins(JMP))
  }

  function CondEnd(fs3: FState, jmp: FState, jz: FState, ghost fs: FState): (fs': FState)
    requires CondPushed(fs, jz) && ElsePushed(jz, jmp) && One(jmp, fs3)
    ensures One(fs, fs') && Top(fs') == |fs.vlocals|
  {
    var fs4 := MoveInto(fs3, jmp);
    Snooze(Patch(Patch(fs4, Pos(jmp), Pos(fs4) - Pos(jmp)), Pos(jz), Pos(jmp) - 1 - Pos(jz) + 1))
  }

  function AssignEnd(fs3: FState, pc: PlaceCode, ghost fs: FState): (fs': FState)
    requires PlacePushed(fs, pc) && One(pc.fs, fs3)
    ensures One(fs, fs')
  {
    match pc
    case LocalCode(fs0) =>
      PopOne(fs0, fs3);
      AddSame(Pop(fs3), Ins(MOVE, Top(Pop(fs3)), Top(fs3)));
      Add(Pop(fs3), Ins(MOVE, Top(Pop(fs3)), Top(fs3)))
    case FieldCode(mid, fs2) => Result3(SET, 0, mid, fs2, fs3, fs)
  }

  function OpAssignEnd(op: Op, fs3: FState, pc: PlaceCode, ghost fs: FState): (fs': FState)
    requires PlacePushed(fs, pc) && One(pc.fs, fs3)
    ensures One(fs, fs')
  {
    match pc
    case LocalCode(fs0) =>
      PopTwo(fs, fs0, fs3);
      var r := Top(Pop(fs3));
      var popped := PushTarget(Pop(Pop(fs3)), r);
      AddSame(popped, Ins(op, r, Top(fs3), r, 0));
      Snooze(Add(popped, Ins(op, r, Top(fs3), r, 0)))
    case FieldCode(mid, fs2) => Result3(COMPARITH, OpChar(op), mid, fs2, fs3, fs)
  }

  function IncDecEnd(post: bool, diff: int, pc: PlaceCode, ghost fs: FState): (fs': FState)
    requires PlacePushed(fs, pc)
    ensures One(fs, fs')
  {
    match pc
    case LocalCode(fs0) =>
      PopOne(fs, fs0);
      AddSame(fs0, Ins(INCL, Top(fs0), Top(fs0), 0, diff));
      if post then Result(Pop(fs0), PINCL, Top(fs0), 0, diff)
      else Add(fs0, Ins(INCL, Top(fs0), Top(fs0), 0, diff))
    case FieldCode(mid, fs2) => Result2(if post then PINC else INC, diff, mid, fs2, fs)
  }

  function ArrayEnd(fs2: FState, fs1: FState, n: nat, ghost fs: FState): (fs': FState)
    requires One(fs, fs1) && Same(fs1, fs2) && |fs1.code| > 0
    ensures One(fs, fs')
  {
    Patch(fs2, Pos(fs1), n)
  }

  /** A function about to be called: its register, then the register of its `this`. */
  datatype MethodCode = MethodCode(clo: FState, self: FState)

  predicate MethodPushed(fs: FState, mc: MethodCode) {
    One(fs, mc.clo) && One(mc.clo, mc.self) && Top(mc.self) == |mc.clo.vlocals|
  }

  lemma MethodReady(mc: MethodCode, fs: FState)
    requires Ready(fs) && MethodPushed(fs, mc)
    ensures Ready(mc.self)
  {
  }

  /** A plain function is called on the caller's own `this`. */
  function CompFunction(clo: FState, ghost fs: FState): (mc: MethodCode)
    requires One(fs, clo)
    ensures MethodPushed(fs, mc)
  {
    MethodCode(clo, Result(clo, MOVE, 0))
  }

  function CompMethod(pc: PlaceCode, ghost fs: FState): (mc: MethodCode)
    requires PlacePushed(fs, pc)
    ensures MethodPushed(fs, mc)
  {
    match pc
    case LocalCode(fs0) => CompFunction(fs0, fs)
    case FieldCode(mid, fs2) => CompLookup(mid, fs2, fs)
  }

  /** A method is looked up in its object, which becomes `this`. */
  function CompLookup(mid: FState, fs2: FState, ghost fs: FState): (mc: MethodCode)
    requires One(fs, mid) && One(mid, fs2)
    ensures MethodPushed(fs, mc)
  {
    PopTwo(fs, mid, fs2);
    var key := Top(fs2);
    var table := Top(Pop(fs2));
    var clo := PushTemp(Pop(Pop(fs2)));
    MethodCode(clo, EmitPrepare(clo, key, table))
  }

  function EmitPrepare(clo: FState, key: int, table: int): (self: FState)
    requires |clo.targets| > 0
    ensures One(clo, self) && Top(self) == |clo.vlocals|
  {
    AddSame(PushTemp(clo), Ins(PREPCALL, Top(clo), key, table, |clo.vlocals|));
    Add(PushTemp(clo), Ins(PREPCALL, Top(clo), key, table, |clo.vlocals|))
  }

  /** Pop a key and an object; their combination goes to a fresh register. */
  function Result2(op: Op, imm: int, mid: FState, fs2: FState, ghost fs: FState): (fs': FState)
    requires One(fs, mid) && One(mid, fs2)
    ensures One(fs, fs') && Top(fs') == |fs.vlocals|
  {
    PopOne(mid, fs2);
    PopOne(fs, Pop(fs2));
    Result(Pop(Pop(fs2)), op, Top(Pop(fs2)), Top(fs2), imm)
  }

  lemma PopThree(fs: FState, mid: FState, fs2: FState, fs3: FState)
    requires One(fs, mid) && One(mid, fs2) && One(fs2, fs3)
    ensures |fs3.targets| > 0 && 0 <= Top(fs3) < |fs3.vlocals| && |Pop(fs3).targets| > 0
    ensures 0 <= Top(Pop(fs3)) < |Pop(fs3).vlocals| && Top(Pop(fs3)) == Top(fs2) && |Pop(Pop(fs3)).targets| > 0
    ensures 0 <= Top(Pop(Pop(fs3))) < |Pop(Pop(fs3)).vlocals| && Top(Pop(Pop(fs3))) == Top(mid)
    ensures Pop(Pop(Pop(fs3))) == fs3.(targets := fs.targets, vlocals := fs.vlocals)
  {
    PopOne(fs2, fs3);
    PopTwo(fs, mid, Pop(fs3));
  }

  /** Pop a value, a key and an object. COMPARITH packs two registers into one operand. */
  function Result3(op: Op, imm: int, mid: FState, fs2: FState, fs3: FState, ghost fs: FState): (fs': FState)
    requires One(fs, mid) && One(mid, fs2) && One(fs2, fs3)
    ensures One(fs, fs') && Top(fs') == |fs.vlocals|
  {
    PopThree(fs, mid, fs2, fs3);
    var val := Top(fs3);
    var key := Top(Pop(fs3));
    var src := Top(Pop(Pop(fs3)));
    var p := Pop(Pop(Pop(fs3)));
    if op == SET then Result(p, SET, src, key, val) else Result(p, op, src * 0x1_0000 + val, key, imm)
  }

  function CompPlace(p: Place, fs: FState): (pc: PlaceCode)
    requires Ready(fs)
    ensures PlacePushed(fs, pc) && Ready(pc.fs)
    decreases p, 1
  {
    match p
    case Name(x) =>
      var pos := Lookup(fs.vlocals, x);
      if pos >= 0 then LocalCode(PushTarget(fs, pos))
      else
        var mid := PushTarget(fs, 0);
        FieldCode(mid, LoadLiteral(mid, Str(x)))
    case Field(o, k) =>
      var mid := CompE(o, fs);
      FieldCode(mid, CompE(k, mid))
  }

  function CompElements(es: seq<Expr>, fs: FState): (fs': FState)
    requires Ready(fs) && |fs.targets| > 0
    ensures Same(fs, fs')
    decreases es, 0
  {
    hide *;
    if es == [] then
      SameSelf(fs);
      fs
    else
      var fs1 := AppendEnd(CompE(es[0], fs), fs);
      OneReady(fs, fs1);
      var fs' := CompElements(es[1..], fs1);
      SameTrans(fs, fs1, fs');
      fs'
  }

  lemma SameSelf(fs: FState)
    ensures Same(fs, fs)
  {
  }

  lemma SameTrans(a: FState, b: FState, c: FState)
    requires Same(a, b) && Same(b, c)
    ensures Same(a, c)
  {
  }

  function AppendEnd(fs1: FState, ghost fs: FState): (fs': FState)
    requires |fs.targets| > 0 && One(fs, fs1)
    ensures Same(fs, fs') && |fs'.targets| > 0
  {
    PopOne(fs, fs1);
    AddSame(Pop(fs1), Ins(APPENDARRAY, Top(fs), Top(fs1), AAT_STACK));
    Add(Pop(fs1), Ins(APPENDARRAY, Top(Pop(fs1)), Top(fs1), AAT_STACK))
  }

  /** An argument that is a local variable is copied to a register of its own. */
  function MoveIfLocal(fs1: FState, ghost fs: FState): (fs': FState)
    requires One(fs, fs1)
    ensures One(fs, fs') && Top(fs') == |fs.vlocals|
  {
    PopOne(fs, fs1);
    if IsLocal(fs1.vlocals, Top(fs1)) then Result(Pop(fs1), MOVE, Top(fs1)) else fs1
  }

  /** The registers n, n + 1, ... and the anonymous slots behind them. */
  function Registers(n: int, k: nat): (s: seq<int>)
    ensures |s| == k
  {
    if k == 0 then [] else Registers(n, k - 1) + [n + k - 1]
  }

  function Temps(k: nat): (s: seq<Slot>)
    ensures |s| == k
  {
    if k == 0 then [] else Temps(k - 1) + [Temp]
  }

  lemma {:induction false} Shift(n: int, k: nat)
    ensures [n] + Registers(n + 1, k) == Registers(n, k + 1)
    ensures [Temp] + Temps(k) == Temps(k + 1)
  {
    if k > 0 {
      Shift(n, k - 1);
    }
  }

  predicate PushedMany(fs: FState, fs': FState, k: nat) {
    && fs'.targets == fs.targets + Registers(|fs.vlocals|, k)
    && fs'.vlocals == fs.vlocals + Temps(k)
  }

  lemma NoArgs(fs: FState)
    ensures Grown(fs, fs) && PushedMany(fs, fs, 0)
  {
  }

  lemma MoreArgs(fs: FState, fs1: FState, fs': FState, k: nat)
    requires k > 0 && One(fs, fs1) && Top(fs1) == |fs.vlocals|
    requires Grown(fs1, fs') && PushedMany(fs1, fs', k - 1)
    ensures Grown(fs, fs') && PushedMany(fs, fs', k)
  {
    Shift(|fs.vlocals|, k - 1);
  }

  /** Arguments fill consecutive registers. */
  function CompArgs(args: seq<Expr>, fs: FState): (fs': FState)
    requires Ready(fs)
    ensures Grown(fs, fs') && PushedMany(fs, fs', |args|)
    decreases args, 0
  {
    hide *;
    if args == [] then
      NoArgs(fs);
      fs
    else
      var fs1 := MoveIfLocal(CompE(args[0], fs), fs);
      OneReady(fs, fs1);
      var fs' := CompArgs(args[1..], fs1);
      MoreArgs(fs, fs1, fs', |args|);
      fs'
  }

  /** Pop `n` temporaries. */
  function PopMany(fs': FState, ghost fs: FState, n: nat): (p: FState)
    requires Grown(fs, fs') && PushedMany(fs, fs', n)
    ensures p == fs'.(targets := fs.targets, vlocals := fs.vlocals) && Same(fs, p)
    decreases n
  {
    if n == 0 then fs'
    else
      assert Pop(fs').targets == fs.targets + Registers(|fs.vlocals|, n - 1);
      assert Pop(fs').vlocals == fs.vlocals + Temps(n - 1);
      PopMany(Pop(fs'), fs, n - 1)
  }

  /** Everything from the function's register on is popped, and the call's result takes its place. */
  function CompCall(args: seq<Expr>, mc: MethodCode, ghost fs: FState): (fs': FState)
    requires Ready(mc.self) && MethodPushed(fs, mc)
    ensures One(fs, fs') && Top(fs') == |fs.vlocals|
    decreases args, 1
  {
    hide *;
    CallEnd(PopMany(CompArgs(args, mc.self), mc.self, |args|), |args|, mc, fs)
  }

  function CallEnd(p: FState, n: nat, ghost mc: MethodCode, ghost fs: FState): (fs': FState)
    requires MethodPushed(fs, mc)
    requires Same(mc.self, p)
    ensures One(fs, fs') && Top(fs') == |fs.vlocals|
  {
    PopTwo(fs, mc.clo, p);
    Result(Pop(Pop(p)), CALL, Top(Pop(p)), Top(p), n + 1)
  }
}
