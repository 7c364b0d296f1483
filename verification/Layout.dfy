/** How the code of an expression is laid out: it continues what was there, leaves nothing pending into a
    local variable, and ends with a pending comparison exactly when its syntax says so. */
module Layout {
  import opened Bytecode
  import opened FuncState
  import opened Source
  import opened CodeGen
  import opened Simulation

  // --- pending comparisons, syntactically

  predicate IsLocalName(p: Place, scope: seq<Slot>) {
    p.Name? && Lookup(scope, p.name) >= 0
  }

  predicate BareLocal(e: Expr, scope: seq<Slot>) {
    e.Load? && IsLocalName(e.p, scope)
  }

  /** Does the code of `e` end with a comparison that is still pending? `b`: was one pending before? */
  predicate EndsCmp(e: Expr, b: bool, scope: seq<Slot>) {
    if BareLocal(e, scope) then b else e.Bin? && e.op == CMP
  }

  predicate PlaceEndsCmp(p: Place, b: bool, scope: seq<Slot>) {
    match p
    case Name(x) => b && Lookup(scope, x) >= 0
    case Field(o, k) => EndsCmp(k, EndsCmp(o, b, scope), scope)
  }

  /** No `?:` whose condition is a bare local variable comes right after a comparison. The conditional jump
      would be merged with that comparison, whatever register it tests. */
  predicate Safe(e: Expr, b: bool, scope: seq<Slot>)
    decreases e, 1
  {
    match e
    case Const(_) => true
    case Load(p) => SafePlace(p, b, scope)
    case Unary(_, e1) => Safe(e1, b, scope)
    case Bin(_, _, l, r) => Safe(l, b, scope) && Safe(r, EndsCmp(l, b, scope), scope)
    case And(l, r) => Safe(l, b, scope) && Safe(r, false, scope)
    case Or(l, r) => Safe(l, b, scope) && Safe(r, false, scope)
    case Cond(c, t, f) =>
      && (BareLocal(c, scope) ==> !b)
      && Safe(c, b, scope) && Safe(t, false, scope) && Safe(f, false, scope)
    case Assign(p, e1) => SafePlace(p, b, scope) && Safe(e1, PlaceEndsCmp(p, b, scope), scope)
    case OpAssign(_, p, e1) => SafePlace(p, b, scope) && Safe(e1, PlaceEndsCmp(p, b, scope), scope)
    case IncDec(_, _, p) => SafePlace(p, b, scope)
    case Array(es) => SafeElements(es, scope)
    case Invoke(p, args) => SafePlace(p, b, scope) && SafeArgs(args, false, scope)
    case CallValue(f, args) => Safe(f, b, scope) && SafeArgs(args, false, scope)
  }

  predicate SafePlace(p: Place, b: bool, scope: seq<Slot>)
    decreases p, 1
  {
    p.Field? ==> Safe(p.o, b, scope) && Safe(p.k, EndsCmp(p.o, b, scope), scope)
  }

  /** Each element is appended before the next is computed. */
  predicate SafeElements(es: seq<Expr>, scope: seq<Slot>)
    decreases es, 0
  {
    es == [] || (Safe(es[0], false, scope) && SafeElements(es[1..], scope))
  }

  /** An argument that is no bare local variable may leave a comparison pending before the next one. */
  predicate SafeArgs(es: seq<Expr>, b: bool, scope: seq<Slot>)
    decreases es, 0
  {
    es == [] || (Safe(es[0], b, scope) && SafeArgs(es[1..], EndsCmp(es[0], false, scope), scope))
  }

  // --- layout

  predicate InScope(fs: FState, scope: seq<Slot>) {
    && scope <= fs.vlocals && Shape(fs, |scope|)
    && forall r :: 0 <= r < |scope| ==> scope[r].Named?
  }

  predicate Fits(fs: FState) {
    fs.stacksize <= MAX_FUNC_STACKSIZE
  }

  lemma LookupScope(fs: FState, scope: seq<Slot>, x: string)
    requires InScope(fs, scope)
    ensures Lookup(fs.vlocals, x) == Lookup(scope, x)
  {
    var r := Lookup(scope, x);
    var q := Lookup(fs.vlocals, x);
    if q >= 0 {
      assert fs.vlocals[q].Named? && q < |scope| && scope[q] == fs.vlocals[q];
    }
    if r >= 0 {
      assert fs.vlocals[r] == scope[r];
    }
  }

  lemma InScopeReady(fs: FState, scope: seq<Slot>)
    requires InScope(fs, scope)
    ensures Ready(fs)
  {
  }

  lemma OneScope(fs: FState, fs': FState, scope: seq<Slot>)
    requires InScope(fs, scope) && (One(fs, fs') || Same(fs, fs'))
    requires |fs'.vlocals| <= fs'.stacksize
    ensures InScope(fs', scope)
  {
  }

  /** What every piece of generated code keeps. */
  predicate Laid(fs: FState, fs': FState, scope: seq<Slot>) {
    Extends(fs, fs') && fs.lits <= fs'.lits && InScope(fs', scope) && DestSafe(fs', |scope|)
  }

  lemma LaidTrans(a: FState, b: FState, c: FState, scope: seq<Slot>)
    requires Laid(a, b, scope) && Laid(b, c, scope)
    ensures Laid(a, c, scope)
  {
  }

  predicate Start(fs: FState, scope: seq<Slot>) {
    InScope(fs, scope) && DestSafe(fs, |scope|)
  }

  lemma LayResult(p: FState, op: Op, a1: int, a2: int, a3: int, scope: seq<Slot>)
    requires Start(p, scope) && Fits(Result(p, op, a1, a2, a3))
    requires (op == LOADNULLS ==> a1 >= 0) && (op == CMP ==> 0 <= a1 < 0xFF)
    ensures Laid(p, Result(p, op, a1, a2, a3), scope)
    ensures LastIsCmp(Result(p, op, a1, a2, a3)) <==> op == CMP
  {
    AddExtends(PushTemp(p), Ins(op, |p.vlocals|, a1, a2, a3));
    AddDest(PushTemp(p), Ins(op, |p.vlocals|, a1, a2, a3), |scope|);
  }

  lemma LayLiteral(p: FState, v: Val, scope: seq<Slot>)
    requires Start(p, scope) && Fits(LoadLiteral(p, v))
    ensures Laid(p, LoadLiteral(p, v), scope) && !LastIsCmp(LoadLiteral(p, v))
  {
    LayResult(AddLiteral(p, v), LOAD, IndexOf(p.lits, v), 0, 0, scope);
  }

  lemma LayConst(v: Val, p: FState, scope: seq<Slot>)
    requires Start(p, scope) && Fits(CompConst(v, p))
    ensures Laid(p, CompConst(v, p), scope) && !LastIsCmp(CompConst(v, p))
  {
    match v {
      case Null => LayResult(p, LOADNULLS, 1, 0, 0, scope);
      case Int(i) => if Immediate(i) { LayResult(p, LOADINT, i, 0, 0, scope); } else { LayLiteral(p, v, scope); }
      case Bool(b) => LayResult(p, LOADBOOL, if b then 1 else 0, 0, 0, scope);
      case Float(bits) => LayResult(p, LOADFLOAT, bits, 0, 0, scope);
      case _ => LayLiteral(p, v, scope);
    }
  }

  lemma LayAdd(p: FState, i: Instr, scope: seq<Slot>)
    requires Start(p, scope) && !MoveFuses(i.op) && i.op !in {CMP, SET, CALL} && (i.op == LOADNULLS ==> i.a1 >= 0)
    ensures Laid(p, Add(p, i), scope) && !LastIsCmp(Add(p, i))
  {
    AddExtends(p, i);
    AddDest(p, i, |scope|);
  }

  lemma LayMoveUnless(p: FState, dst: int, src: int, scope: seq<Slot>)
    requires Start(p, scope)
    ensures Laid(p, MoveUnless(p, dst, src), scope)
    ensures LastIsCmp(MoveUnless(p, dst, src)) ==> dst == src && LastIsCmp(p)
  {
    LayAdd(p, Ins(MOVE, dst, src), scope);
  }

  /** Popping targets does not touch the code. */
  lemma LayPop(fs: FState, fs1: FState, scope: seq<Slot>)
    requires Start(fs, scope) && One(fs, fs1) && Start(fs1, scope)
    ensures 0 <= Top(fs1) < |fs1.vlocals|
    ensures Laid(fs1, Pop(fs1), scope) && LastIsCmp(Pop(fs1)) == LastIsCmp(fs1) && Pop(fs1).stacksize == fs1.stacksize
  {
    PopOne(fs, fs1);
  }

  lemma LayPop2(fs: FState, fs1: FState, fs2: FState, scope: seq<Slot>)
    requires Start(fs, scope) && One(fs, fs1) && One(fs1, fs2) && Start(fs2, scope)
    ensures 0 <= Top(fs2) < |fs2.vlocals| && 0 <= Top(Pop(fs2)) < |Pop(fs2).vlocals|
    ensures Laid(fs2, Pop(Pop(fs2)), scope) && LastIsCmp(Pop(Pop(fs2))) == LastIsCmp(fs2)
    ensures Pop(Pop(fs2)).stacksize == fs2.stacksize
  {
    PopTwo(fs, fs1, fs2);
  }

  lemma LayUnary(op: Op, fs1: FState, fs: FState, scope: seq<Slot>)
    requires Start(fs, scope) && One(fs, fs1) && Start(fs1, scope) && Fits(UnaryEnd(op, fs1, fs))
      && op !in {LOADNULLS, CMP}
    ensures Laid(fs1, UnaryEnd(op, fs1, fs), scope) && !LastIsCmp(UnaryEnd(op, fs1, fs))
  {
    LayPop(fs, fs1, scope);
    LayResult(Pop(fs1), op, Top(fs1), 0, 0, scope);
  }

  lemma LayBin(op: Op, imm: int, fs2: FState, fs1: FState, fs: FState, scope: seq<Slot>)
    requires Start(fs, scope) && One(fs, fs1) && One(fs1, fs2) && Start(fs2, scope)
    requires Fits(BinEnd(op, imm, fs2, fs1, fs)) && op != LOADNULLS
    ensures Laid(fs2, BinEnd(op, imm, fs2, fs1, fs), scope)
    ensures LastIsCmp(BinEnd(op, imm, fs2, fs1, fs)) <==> op == CMP
  {
    LayPop2(fs, fs1, fs2, scope);
    PopTwo(fs, fs1, fs2);
    LayResult(Pop(Pop(fs2)), op, Top(fs2), Top(Pop(fs2)), imm, scope);
  }

  lemma LayResult2(op: Op, imm: int, mid: FState, fs2: FState, fs: FState, scope: seq<Slot>)
    requires Start(fs, scope) && One(fs, mid) && One(mid, fs2) && Start(fs2, scope)
    requires Fits(Result2(op, imm, mid, fs2, fs)) && op !in {LOADNULLS, CMP}
    ensures Laid(fs2, Result2(op, imm, mid, fs2, fs), scope) && !LastIsCmp(Result2(op, imm, mid, fs2, fs))
  {
    LayPop2(fs, mid, fs2, scope);
    PopTwo(fs, mid, fs2);
    LayResult(Pop(Pop(fs2)), op, Top(Pop(fs2)), Top(fs2), imm, scope);
  }

  lemma LayResult3(op: Op, imm: int, mid: FState, fs2: FState, fs3: FState, fs: FState, scope: seq<Slot>)
    requires Start(fs, scope) && One(fs, mid) && One(mid, fs2) && One(fs2, fs3) && Start(fs3, scope)
    requires Fits(Result3(op, imm, mid, fs2, fs3, fs)) && op in {SET, COMPARITH}
    ensures Laid(fs3, Result3(op, imm, mid, fs2, fs3, fs), scope) && !LastIsCmp(Result3(op, imm, mid, fs2, fs3, fs))
  {
    hide Pop;
    PopThree(fs, mid, fs2, fs3);
    var val, key, src := Top(fs3), Top(Pop(fs3)), Top(Pop(Pop(fs3)));
    var p := Pop(Pop(Pop(fs3)));
    assert Start(p, scope);
    if op == SET {
      LayResult(p, SET, src, key, val, scope);
    } else {
      LayResult(p, op, src * 0x1_0000 + val, key, imm, scope);
    }
  }

  lemma LayCircuit(op: Op, fs1: FState, fs: FState, scope: seq<Slot>)
    requires Start(fs, scope) && One(fs, fs1) && Start(fs1, scope) && Fits(Circuit(op, fs1, fs).after)
      && op in {AND, OR}
    ensures var t := Circuit(op, fs1, fs);
      Laid(fs1, t.jump, scope) && Laid(t.jump, t.after, scope) && !LastIsCmp(t.after) && !Open(t.jump)
      && Last(t.jump.code) == Ins(op, |fs.vlocals|, 0, Top(fs1), 0) && |t.jump.code| == |fs1.code| + 1
  {
    hide Pop, Add, Fuse;
    LayPop(fs, fs1, scope);
    PopOne(fs, fs1);
    LayTestJump(op, fs1, Pop(fs1), scope);
    var t := Circuit(op, fs1, fs);
    LayMoveUnless(t.jump, Top(t.jump), Top(fs1), scope);
  }

  lemma LayTestJump(op: Op, fs1: FState, p: FState, scope: seq<Slot>)
    requires |fs1.targets| > 0 && op in {AND, OR} && Start(p, scope) && Fits(Result(p, op, 0, Top(fs1), 0))
      && p.code == fs1.code && p.opt == fs1.opt
    ensures var jump := Result(p, op, 0, Top(fs1), 0);
      Laid(p, jump, scope) && !Open(jump) && Last(jump.code) == Ins(op, |p.vlocals|, 0, Top(fs1), 0)
        && |jump.code| == |fs1.code| + 1
  {
    hide Fuse;
    LayResult(p, op, 0, Top(fs1), 0, scope);
    AddAppends(PushTemp(p), Ins(op, |p.vlocals|, 0, Top(fs1), 0));
  }

  /** The second operand's result is moved to the register below it. */
  lemma LayJoin(fs3: FState, before: FState, scope: seq<Slot>)
    requires Start(before, scope) && |before.targets| > 0 && One(before, fs3) && Start(fs3, scope)
    ensures Laid(fs3, MoveInto(fs3, before), scope)
  {
    PopOne(before, fs3);
    LayMoveUnless(Pop(fs3), Top(Pop(fs3)), Top(fs3), scope);
  }

  /** Patching what is not yet final changes nothing final. */
  lemma LayPatch(fs: FState, u: FState, pos: int, d: int, scope: seq<Slot>)
    requires Laid(fs, u, scope) && !Open(u) && Frontier(fs) <= pos < |u.code|
    ensures Laid(fs, Patch(u, pos, d), scope) && !Open(Patch(u, pos, d))
  {
  }

  lemma LaySnooze(fs: FState, u: FState, scope: seq<Slot>)
    requires Laid(fs, u, scope)
    ensures Laid(fs, Snooze(u), scope) && !Open(Snooze(u)) && Laid(u, Snooze(u), scope)
  {
  }

  lemma LayCircuitEnd(fs3: FState, t: Test, fs1: FState, fs: FState, scope: seq<Slot>)
    requires Start(fs, scope) && TestPushed(fs, t) && One(t.after, fs3) && Start(fs3, scope)
    requires Laid(fs1, t.jump, scope) && |t.jump.code| == |fs1.code| + 1 && Laid(t.after, fs3, scope)
      && Laid(t.jump, t.after, scope)
    ensures Laid(fs1, CircuitEnd(fs3, t, fs), scope) && !Open(CircuitEnd(fs3, t, fs))
  {
    hide Add, Fuse, FuseLast, MoveUnless, Shape, Pop;
    var s := Snooze(fs3);
    SnoozeOne(t.after, fs3);
    LaySnooze(t.after, fs3, scope);
    LayJoin(s, t.after, scope);
    var u := MoveInto(s, t.after);
    LaidTrans(fs1, t.jump, t.after, scope);
    LaidTrans(fs1, t.after, fs3, scope);
    LaidTrans(fs1, fs3, s, scope);
    LaidTrans(fs1, s, u, scope);
    LaySnooze(fs1, u, scope);
    LayPatch(fs1, Snooze(u), Pos(t.jump), Pos(u) - Pos(t.jump), scope);
  }

  lemma LayCondTest(fs1: FState, fs: FState, scope: seq<Slot>)
    requires Start(fs, scope) && One(fs, fs1) && Start(fs1, scope)
    ensures var jz := CondTest(fs1, fs);
      Laid(fs1, jz, scope) && !Open(jz) && Frontier(fs1) <= Pos(jz) && Last(jz.code).op in {JZ, JCMP}
  {
    hide Pop, Shape;
    LayPop(fs, fs1, scope);
    LayAdd(Pop(fs1), Ins(JZ, Top(fs1)), scope);
  }

  lemma LayCondElse(fs2: FState, jz: FState, fs: FState, scope: seq<Slot>)
    requires Ready(fs) && CondPushed(fs, jz) && One(PushTemp(jz), fs2) && Start(PushTemp(jz), scope)
      && Start(fs2, scope)
    ensures var jmp := CondElse(fs2, jz, fs);
      Laid(fs2, jmp, scope) && !Open(jmp) && Last(jmp.code) == Ins(JMP)
  {
    hide Fuse, FuseLast, MoveInto, Shape, Pushed;
    LayJoin(fs2, PushTemp(jz), scope);
    AddAppends(MoveInto(fs2, PushTemp(jz)), Ins(JMP));
    LayAdd(MoveInto(fs2, PushTemp(jz)), Ins(JMP), scope);
  }

  lemma LayCondEnd(fs3: FState, jmp: FState, jz: FState, fs1: FState, fs: FState, scope: seq<Slot>)
    requires Start(fs, scope) && CondPushed(fs, jz) && ElsePushed(jz, jmp) && One(jmp, fs3) && Start(fs3, scope)
    requires Laid(fs1, jz, scope) && Laid(jz, jmp, scope) && Laid(jmp, fs3, scope) && Frontier(fs1) <= Pos(jz)
    ensures Laid(fs1, CondEnd(fs3, jmp, jz, fs), scope) && !Open(CondEnd(fs3, jmp, jz, fs))
  {
    hide Add, Fuse, FuseLast, MoveUnless, Shape, Pop;
    LayJoin(fs3, jmp, scope);
    var u := MoveInto(fs3, jmp);
    LaidTrans(fs1, jz, jmp, scope);
    LaidTrans(fs1, jmp, fs3, scope);
    LaidTrans(fs1, fs3, u, scope);
    LaySnooze(fs1, u, scope);
    var u1 := Patch(Snooze(u), Pos(jmp), Pos(u) - Pos(jmp));
    LayPatch(fs1, Snooze(u), Pos(jmp), Pos(u) - Pos(jmp), scope);
    LayPatch(fs1, u1, Pos(jz), Pos(jmp) - 1 - Pos(jz) + 1, scope);
  }

  predicate PlaceStart(fs: FState, pc: PlaceCode, scope: seq<Slot>) {
    PlacePushed(fs, pc) && Start(pc.fs, scope)
  }

  lemma LayAssign(fs3: FState, pc: PlaceCode, fs: FState, scope: seq<Slot>)
    requires Start(fs, scope) && PlaceStart(fs, pc, scope) && One(pc.fs, fs3) && Start(fs3, scope)
      && Fits(AssignEnd(fs3, pc, fs))
    ensures Laid(fs3, AssignEnd(fs3, pc, fs), scope) && !LastIsCmp(AssignEnd(fs3, pc, fs))
  {
    match pc {
      case LocalCode(fs0) =>
        LayPop(fs0, fs3, scope);
        LayAdd(Pop(fs3), Ins(MOVE, Top(Pop(fs3)), Top(fs3)), scope);
      case FieldCode(mid, fs2) =>
        LayResult3(SET, 0, mid, fs2, fs3, fs, scope);
    }
  }

  lemma LayOpAssign(op: Op, fs3: FState, pc: PlaceCode, fs: FState, scope: seq<Slot>)
    requires Start(fs, scope) && PlaceStart(fs, pc, scope) && One(pc.fs, fs3) && Start(fs3, scope)
    requires Fits(OpAssignEnd(op, fs3, pc, fs))
    ensures Laid(fs3, OpAssignEnd(op, fs3, pc, fs), scope) && !LastIsCmp(OpAssignEnd(op, fs3, pc, fs))
  {
    match pc {
      case LocalCode(fs0) =>
        PopTwo(fs, fs0, fs3);
        var r := Top(Pop(fs3));
        AddExtends(PushTarget(Pop(Pop(fs3)), r), Ins(op, r, Top(fs3), r, 0));
      case FieldCode(mid, fs2) =>
        LayResult3(COMPARITH, OpChar(op), mid, fs2, fs3, fs, scope);
    }
  }

  lemma LayIncDec(post: bool, diff: int, pc: PlaceCode, fs: FState, scope: seq<Slot>)
    requires Start(fs, scope) && PlaceStart(fs, pc, scope) && Fits(IncDecEnd(post, diff, pc, fs))
    ensures Laid(pc.fs, IncDecEnd(post, diff, pc, fs), scope) && !LastIsCmp(IncDecEnd(post, diff, pc, fs))
  {
    match pc {
      case LocalCode(fs0) =>
        LayPop(fs, fs0, scope);
        PopOne(fs, fs0);
        if post {
          LayResult(Pop(fs0), PINCL, Top(fs0), 0, diff, scope);
        } else {
          LayAdd(fs0, Ins(INCL, Top(fs0), Top(fs0), 0, diff), scope);
        }
      case FieldCode(mid, fs2) =>
        LayResult2(if post then PINC else INC, diff, mid, fs2, fs, scope);
    }
  }

  lemma LayArrayEnd(fs2: FState, fs1: FState, n: nat, fs: FState, scope: seq<Slot>)
    requires Start(fs, scope) && One(fs, fs1) && Same(fs1, fs2) && |fs1.code| > 0 && Start(fs2, scope)
    requires Extends(fs1, fs2) && Extends(fs, fs1) && !Open(fs1) && fs.lits <= fs1.lits <= fs2.lits
      && Last(fs1.code).op == NEWOBJ && |fs1.code| == |fs.code| + 1
    ensures Laid(fs, ArrayEnd(fs2, fs1, n, fs), scope)
    ensures LastIsCmp(ArrayEnd(fs2, fs1, n, fs)) ==> LastIsCmp(fs2)
  {
    assert fs2.code[Pos(fs1)].op == NEWOBJ;
    ExtendsTrans(fs, fs1, fs2);
  }

  lemma LayAppend(fs1: FState, fs: FState, scope: seq<Slot>)
    requires |fs.targets| > 0 && Start(fs, scope) && One(fs, fs1) && Start(fs1, scope)
    ensures Laid(fs1, AppendEnd(fs1, fs), scope) && !LastIsCmp(AppendEnd(fs1, fs))
  {
    LayPop(fs, fs1, scope);
    LayAdd(Pop(fs1), Ins(APPENDARRAY, Top(Pop(fs1)), Top(fs1), AAT_STACK), scope);
  }

  lemma LayFunction(clo: FState, fs: FState, scope: seq<Slot>)
    requires Start(fs, scope) && One(fs, clo) && Start(clo, scope) && Fits(CompFunction(clo, fs).self)
    ensures Laid(clo, CompFunction(clo, fs).self, scope) && !LastIsCmp(CompFunction(clo, fs).self)
  {
    LayResult(clo, MOVE, 0, 0, 0, scope);
  }

  lemma LayMethod(pc: PlaceCode, fs: FState, scope: seq<Slot>)
    requires Start(fs, scope) && PlaceStart(fs, pc, scope) && Fits(CompMethod(pc, fs).self)
    ensures Laid(pc.fs, CompMethod(pc, fs).self, scope) && !LastIsCmp(CompMethod(pc, fs).self)
  {
    match pc {
      case LocalCode(fs0) => LayFunction(fs0, fs, scope);
      case FieldCode(mid, fs2) => LayLookup(mid, fs2, fs, scope);
    }
  }

  lemma LayLookup(mid: FState, fs2: FState, fs: FState, scope: seq<Slot>)
    requires Start(fs, scope) && One(fs, mid) && One(mid, fs2) && Start(fs2, scope)
      && Fits(CompLookup(mid, fs2, fs).self)
    ensures Laid(fs2, CompLookup(mid, fs2, fs).self, scope) && !LastIsCmp(CompLookup(mid, fs2, fs).self)
  {
    LayPop2(fs, mid, fs2, scope);
    PopTwo(fs, mid, fs2);
    var p := Pop(Pop(fs2));
    LayPrepare(PushTemp(p), Top(fs2), Top(Pop(fs2)), scope);
  }

  lemma LayPrepare(clo: FState, key: int, table: int, scope: seq<Slot>)
    requires Start(clo, scope) && |clo.targets| > 0
    ensures Laid(clo, EmitPrepare(clo, key, table), scope) && !LastIsCmp(EmitPrepare(clo, key, table))
  {
    LayAdd(PushTemp(clo), Ins(PREPCALL, Top(clo), key, table, |clo.vlocals|), scope);
  }

  lemma LayMoveIfLocal(fs1: FState, fs: FState, scope: seq<Slot>)
    requires Start(fs, scope) && One(fs, fs1) && Start(fs1, scope) && Fits(MoveIfLocal(fs1, fs))
    ensures Laid(fs1, MoveIfLocal(fs1, fs), scope)
    ensures LastIsCmp(MoveIfLocal(fs1, fs)) <==> LastIsCmp(fs1) && Top(fs1) >= |scope|
  {
    LayPop(fs, fs1, scope);
    if IsLocal(fs1.vlocals, Top(fs1)) {
      LayResult(Pop(fs1), MOVE, Top(fs1), 0, 0, scope);
    }
  }

  lemma LayCallEnd(p: FState, n: nat, mc: MethodCode, fs: FState, scope: seq<Slot>)
    requires Start(fs, scope) && MethodPushed(fs, mc) && Same(mc.self, p) && Start(p, scope)
      && Fits(CallEnd(p, n, mc, fs))
    ensures Laid(p, CallEnd(p, n, mc, fs), scope) && !LastIsCmp(CallEnd(p, n, mc, fs))
  {
    hide Add, Fuse, FuseLast, Pop;
    PopTwo(fs, mc.clo, p);
    LayResult(Pop(Pop(p)), CALL, Top(Pop(p)), Top(p), n + 1, scope);
  }

  // --- expressions

  lemma Grows(fs: FState, fs': FState)
    requires One(fs, fs') || Same(fs, fs')
    ensures Fits(fs') ==> Fits(fs)
  {
  }

  lemma UnaryGrows(op: Op, fs1: FState, fs: FState)
    requires One(fs, fs1)
    ensures Fits(UnaryEnd(op, fs1, fs)) ==> Fits(fs1)
  {
  }

  lemma BinGrows(op: Op, imm: int, fs2: FState, fs1: FState, fs: FState)
    requires One(fs, fs1) && One(fs1, fs2)
    ensures Fits(BinEnd(op, imm, fs2, fs1, fs)) ==> Fits(fs2) && Fits(fs1)
  {
  }

  lemma CircuitGrows(fs3: FState, test: Test, fs1: FState, op: Op, fs: FState)
    requires One(fs, fs1) && test == Circuit(op, fs1, fs) && One(test.after, fs3)
    ensures Fits(CircuitEnd(fs3, test, fs)) ==> Fits(fs3) && Fits(test.after) && Fits(test.jump) && Fits(fs1)
  {
  }

  lemma AssignGrows(fs3: FState, pc: PlaceCode, fs: FState)
    requires PlacePushed(fs, pc) && One(pc.fs, fs3)
    ensures Fits(AssignEnd(fs3, pc, fs)) ==> Fits(fs3) && Fits(pc.fs)
  {
  }

  lemma OpAssignGrows(op: Op, fs3: FState, pc: PlaceCode, fs: FState)
    requires PlacePushed(fs, pc) && One(pc.fs, fs3)
    ensures Fits(OpAssignEnd(op, fs3, pc, fs)) ==> Fits(fs3) && Fits(pc.fs)
  {
  }

  lemma IncDecGrows(post: bool, diff: int, pc: PlaceCode, fs: FState)
    requires PlacePushed(fs, pc)
    ensures Fits(IncDecEnd(post, diff, pc, fs)) ==> Fits(pc.fs)
  {
  }

  lemma AppendGrows(fs1: FState, fs: FState)
    requires |fs.targets| > 0 && One(fs, fs1)
    ensures Fits(AppendEnd(fs1, fs)) ==> Fits(fs1)
  {
  }

  lemma MoveGrows(fs1: FState, fs: FState)
    requires One(fs, fs1)
    ensures Fits(MoveIfLocal(fs1, fs)) ==> Fits(fs1)
  {
  }

  lemma LayE(e: Expr, fs: FState, scope: seq<Slot>)
    requires Start(fs, scope) && Ready(fs) && WellFormed(e) && Fits(CompE(e, fs))
    ensures Laid(fs, CompE(e, fs), scope)
    ensures LastIsCmp(CompE(e, fs)) <==> EndsCmp(e, LastIsCmp(fs), scope)
    decreases e, 1
  {
    match e
    case Const(v) => LayConst(v, fs, scope);
    case Load(p) => LayLoad(p, fs, scope);
    case Unary(op, e1) => LayUnaryE(e, fs, scope);
    case Bin(op, imm, l, r) => LayBinE(e, fs, scope);
    case And(l, r) => LayCircuitE(e, AND, l, r, fs, scope);
    case Or(l, r) => LayCircuitE(e, OR, l, r, fs, scope);
    case Cond(c, t, f) => LayCondE(e, fs, scope);
    case Assign(p, e1) => LayAssignE(e, fs, scope);
    case OpAssign(op, p, e1) => LayOpAssignE(e, fs, scope);
    case IncDec(post, diff, p) => LayIncDecE(e, fs, scope);
    case Array(es) => LayArrayE(e, fs, scope);
    case Invoke(p, args) => LayInvokeE(e, fs, scope);
    case CallValue(f, args) => LayCallE(e, fs, scope);
  }

  lemma LayLoad(p: Place, fs: FState, scope: seq<Slot>)
    requires Start(fs, scope) && Ready(fs) && WellFormedPlace(p) && Fits(CompE(Load(p), fs))
    ensures Laid(fs, CompE(Load(p), fs), scope)
    ensures LastIsCmp(CompE(Load(p), fs)) <==> EndsCmp(Load(p), LastIsCmp(fs), scope)
    decreases p, 2
  {
    var pc := CompPlace(p, fs);
    PlaceGrows(p, fs, scope);
    LayPlace(p, fs, scope);
    match pc {
      case LocalCode(_) =>
      case FieldCode(mid, fs2) =>
        LayResult2(GET, 0, mid, fs2, fs, scope);
        LaidTrans(fs, fs2, CompE(Load(p), fs), scope);
    }
  }

  /** Room enough for the whole expression is room enough for its place. */
  lemma PlaceGrows(p: Place, fs: FState, scope: seq<Slot>)
    requires Ready(fs)
    ensures Fits(LoadEnd(CompPlace(p, fs), fs)) ==> Fits(CompPlace(p, fs).fs)
  {
  }

  lemma LayUnaryE(e: Expr, fs: FState, scope: seq<Slot>)
    requires Start(fs, scope) && Ready(fs) && e.Unary? && WellFormed(e) && Fits(CompE(e, fs))
    ensures Laid(fs, CompE(e, fs), scope) && !LastIsCmp(CompE(e, fs))
    decreases e, 0
  {
    var fs1 := CompE(e.e, fs);
    LayE(e.e, fs, scope);
    LayUnary(e.op, fs1, fs, scope);
    LaidTrans(fs, fs1, CompE(e, fs), scope);
  }

  lemma LayBinE(e: Expr, fs: FState, scope: seq<Slot>)
    requires Start(fs, scope) && Ready(fs) && e.Bin? && WellFormed(e) && Fits(CompE(e, fs))
    ensures Laid(fs, CompE(e, fs), scope) && (LastIsCmp(CompE(e, fs)) <==> e.op == CMP)
    decreases e, 0
  {
    var fs1 := CompE(e.l, fs);
    var fs2 := CompE(e.r, fs1);
    LayE(e.l, fs, scope);
    LayE(e.r, fs1, scope);
    LayBin(e.op, e.imm, fs2, fs1, fs, scope);
    LaidTrans(fs, fs1, fs2, scope);
    LaidTrans(fs, fs2, CompE(e, fs), scope);
  }

  lemma LayCircuitE(e: Expr, op: Op, l: Expr, r: Expr, fs: FState, scope: seq<Slot>)
    requires Start(fs, scope) && Ready(fs) && WellFormed(e) && Fits(CompE(e, fs))
    requires (op == AND && e == Expr.And(l, r)) || (op == OR && e == Expr.Or(l, r))
    ensures Laid(fs, CompE(e, fs), scope) && !LastIsCmp(CompE(e, fs))
    decreases e, 0
  {
    var fs1 := CompE(l, fs);
    var test := Circuit(op, fs1, fs);
    TestReady(test, fs);
    var fs3 := CompE(r, test.after);
    Grows(test.after, fs3);
    assert Fits(fs3);
    LayE(l, fs, scope);
    LayCircuit(op, fs1, fs, scope);
    LayE(r, test.after, scope);
    LayCircuitEnd(fs3, test, fs1, fs, scope);
    LaidTrans(fs, fs1, CompE(e, fs), scope);
  }

  lemma LayCondE(e: Expr, fs: FState, scope: seq<Slot>)
    requires Start(fs, scope) && Ready(fs) && e.Cond? && WellFormed(e) && Fits(CompE(e, fs))
    ensures Laid(fs, CompE(e, fs), scope) && !LastIsCmp(CompE(e, fs))
    decreases e, 0
  {
    hide CondTest, CondElse, CondEnd, DestSafe, Extends, Fits, InScope;
    var fs1 := CompE(e.c, fs);
    var jz := CondTest(fs1, fs);
    CondReady(jz, fs);
    var fs2 := CompE(e.t, PushTemp(jz));
    var jmp := CondElse(fs2, jz, fs);
    var fs3 := CompE(e.f, jmp);
    CondGrows(fs3, jmp, fs2, jz, fs1, fs);
    LayE(e.c, fs, scope);
    LayCondTest(fs1, fs, scope);
    LayPushTemp(jz, PushTemp(jz), scope);
    LayE(e.t, PushTemp(jz), scope);
    LayCondElse(fs2, jz, fs, scope);
    LayE(e.f, jmp, scope);
    LaidTrans(jz, PushTemp(jz), fs2, scope);
    LaidTrans(jz, fs2, jmp, scope);
    LayCondEnd(fs3, jmp, jz, fs1, fs, scope);
    LaidTrans(fs, fs1, CompE(e, fs), scope);
  }

  lemma CondGrows(fs3: FState, jmp: FState, fs2: FState, jz: FState, fs1: FState, fs: FState)
    requires One(fs, fs1) && CondPushed(fs, jz) && One(PushTemp(jz), fs2) && ElsePushed(jz, jmp) && One(jmp, fs3)
    requires Ready(fs) && jz == CondTest(fs1, fs) && jmp == CondElse(fs2, jz, fs)
    ensures Fits(CondEnd(fs3, jmp, jz, fs)) ==>
      Fits(fs3) && Fits(jmp) && Fits(fs2) && Fits(PushTemp(jz)) && Fits(jz) && Fits(fs1)
  {
  }

  lemma LayPushTemp(jz: FState, b: FState, scope: seq<Slot>)
    requires Start(jz, scope) && !Open(jz) && b == PushTemp(jz)
    ensures Laid(jz, b, scope) && Start(b, scope) && !LastIsCmp(b) && !Open(b)
  {
  }

  lemma LayAssignE(e: Expr, fs: FState, scope: seq<Slot>)
    requires Start(fs, scope) && Ready(fs) && e.Assign? && WellFormed(e) && Fits(CompE(e, fs))
    ensures Laid(fs, CompE(e, fs), scope) && !LastIsCmp(CompE(e, fs))
    decreases e, 0
  {
    var pc := CompPlace(e.p, fs);
    var fs3 := CompE(e.e, pc.fs);
    assert Fits(fs3) && Fits(pc.fs);
    LayPlace(e.p, fs, scope);
    LayE(e.e, pc.fs, scope);
    LayAssign(fs3, pc, fs, scope);
    LaidTrans(fs, pc.fs, fs3, scope);
    LaidTrans(fs, fs3, CompE(e, fs), scope);
  }

  lemma LayOpAssignE(e: Expr, fs: FState, scope: seq<Slot>)
    requires Start(fs, scope) && Ready(fs) && e.OpAssign? && WellFormed(e) && Fits(CompE(e, fs))
    ensures Laid(fs, CompE(e, fs), scope) && !LastIsCmp(CompE(e, fs))
    decreases e, 0
  {
    var pc := CompPlace(e.p, fs);
    var fs3 := CompE(e.e, pc.fs);
    assert Fits(fs3) && Fits(pc.fs);
    LayPlace(e.p, fs, scope);
    LayE(e.e, pc.fs, scope);
    LayOpAssign(e.op, fs3, pc, fs, scope);
    LaidTrans(fs, pc.fs, fs3, scope);
    LaidTrans(fs, fs3, CompE(e, fs), scope);
  }

  lemma LayIncDecE(e: Expr, fs: FState, scope: seq<Slot>)
    requires Start(fs, scope) && Ready(fs) && e.IncDec? && WellFormed(e) && Fits(CompE(e, fs))
    ensures Laid(fs, CompE(e, fs), scope) && !LastIsCmp(CompE(e, fs))
    decreases e, 0
  {
    var pc := CompPlace(e.p, fs);
    assert Fits(pc.fs);
    LayPlace(e.p, fs, scope);
    LayIncDec(e.post, e.diff, pc, fs, scope);
    LaidTrans(fs, pc.fs, CompE(e, fs), scope);
  }

  lemma LayArrayE(e: Expr, fs: FState, scope: seq<Slot>)
    requires Start(fs, scope) && Ready(fs) && e.Array? && WellFormed(e) && Fits(CompE(e, fs))
    ensures Laid(fs, CompE(e, fs), scope) && !LastIsCmp(CompE(e, fs))
    decreases e, 0
  {
    hide ArrayEnd, DestSafe, Extends, Fits, InScope, Result;
    var fs1 := Result(fs, NEWOBJ, 0, 0, NOT_ARRAY);
    OneReady(fs, fs1);
    var fs2 := CompElements(e.es, fs1);
    ArrayGrows(fs2, fs1, |e.es|, fs);
    LayNewArray(fs, scope);
    LayElements(e.es, fs1, scope);
    LayArrayEnd(fs2, fs1, |e.es|, fs, scope);
  }

  lemma LayNewArray(fs: FState, scope: seq<Slot>)
    requires Start(fs, scope) && Fits(Result(fs, NEWOBJ, 0, 0, NOT_ARRAY))
    ensures var fs1 := Result(fs, NEWOBJ, 0, 0, NOT_ARRAY);
      Laid(fs, fs1, scope) && !Open(fs1) && |fs1.code| == |fs.code| + 1
        && Last(fs1.code) == Ins(NEWOBJ, |fs.vlocals|, 0, 0, NOT_ARRAY)
  {
    LayResult(fs, NEWOBJ, 0, 0, NOT_ARRAY, scope);
  }

  lemma ArrayGrows(fs2: FState, fs1: FState, n: nat, fs: FState)
    requires One(fs, fs1) && Same(fs1, fs2) && |fs1.code| > 0
    ensures Fits(ArrayEnd(fs2, fs1, n, fs)) ==> Fits(fs2) && Fits(fs1)
  {
  }

  lemma LayInvokeE(e: Expr, fs: FState, scope: seq<Slot>)
    requires Start(fs, scope) && Ready(fs) && e.Invoke? && WellFormed(e) && Fits(CompE(e, fs))
    ensures Laid(fs, CompE(e, fs), scope) && !LastIsCmp(CompE(e, fs))
    decreases e, 0
  {
    var pc := CompPlace(e.p, fs);
    var mc := CompMethod(pc, fs);
    MethodReady(mc, fs);
    CallGrows(e.args, mc, fs);
    MethodGrows(pc, fs);
    LayPlace(e.p, fs, scope);
    LayMethod(pc, fs, scope);
    LayCall(e.args, mc, fs, scope);
    LaidTrans(fs, pc.fs, mc.self, scope);
    LaidTrans(fs, mc.self, CompE(e, fs), scope);
  }

  lemma LayCallE(e: Expr, fs: FState, scope: seq<Slot>)
    requires Start(fs, scope) && Ready(fs) && e.CallValue? && WellFormed(e) && Fits(CompE(e, fs))
    ensures Laid(fs, CompE(e, fs), scope) && !LastIsCmp(CompE(e, fs))
    decreases e, 0
  {
    var fs1 := CompE(e.f, fs);
    var mc := CompFunction(fs1, fs);
    MethodReady(mc, fs);
    CallGrows(e.args, mc, fs);
    Grows(mc.clo, mc.self);
    LayE(e.f, fs, scope);
    LayFunction(fs1, fs, scope);
    LayCall(e.args, mc, fs, scope);
    LaidTrans(fs, fs1, mc.self, scope);
    LaidTrans(fs, mc.self, CompE(e, fs), scope);
  }

  lemma CallGrows(args: seq<Expr>, mc: MethodCode, fs: FState)
    requires Ready(mc.self) && MethodPushed(fs, mc)
    ensures Fits(CompCall(args, mc, fs)) ==> Fits(CompArgs(args, mc.self)) && Fits(mc.self)
  {
  }

  lemma MethodGrows(pc: PlaceCode, fs: FState)
    requires PlacePushed(fs, pc)
    ensures Fits(CompMethod(pc, fs).self) ==> Fits(pc.fs)
  {
  }

  lemma LayPlace(p: Place, fs: FState, scope: seq<Slot>)
    requires Start(fs, scope) && Ready(fs) && WellFormedPlace(p) && Fits(CompPlace(p, fs).fs)
    ensures Laid(fs, CompPlace(p, fs).fs, scope)
    ensures CompPlace(p, fs).FieldCode? ==>
      Laid(fs, CompPlace(p, fs).mid, scope) && Laid(CompPlace(p, fs).mid, CompPlace(p, fs).fs, scope)
    ensures LastIsCmp(CompPlace(p, fs).fs) <==> PlaceEndsCmp(p, LastIsCmp(fs), scope)
    ensures CompPlace(p, fs).LocalCode? <==> IsLocalName(p, scope)
    decreases p, 1
  {
    match p
    case Name(x) =>
      LookupScope(fs, scope, x);
      if Lookup(scope, x) < 0 {
        LayLiteral(PushTarget(fs, 0), Str(x), scope);
      }
    case Field(o, k) =>
      var mid := CompE(o, fs);
      LayE(o, fs, scope);
      LayE(k, mid, scope);
      LaidTrans(fs, mid, CompE(k, mid), scope);
  }

  lemma LayElements(es: seq<Expr>, fs: FState, scope: seq<Slot>)
    requires Start(fs, scope) && Ready(fs) && WellFormedAll(es) && |fs.targets| > 0 && Fits(CompElements(es, fs))
    ensures Laid(fs, CompElements(es, fs), scope)
    ensures !LastIsCmp(fs) ==> !LastIsCmp(CompElements(es, fs))
    decreases es, 0
  {
    if es != [] {
      var fs1 := CompE(es[0], fs);
      var fs2 := AppendEnd(fs1, fs);
      OneReady(fs, fs2);
      assert Fits(fs2) && Fits(fs1);
      LayE(es[0], fs, scope);
      LayAppend(fs1, fs, scope);
      LayElements(es[1..], fs2, scope);
      LaidTrans(fs, fs1, fs2, scope);
      LaidTrans(fs, fs2, CompElements(es, fs), scope);
    }
  }

  lemma LayCall(args: seq<Expr>, mc: MethodCode, fs: FState, scope: seq<Slot>)
    requires Start(fs, scope) && MethodPushed(fs, mc) && Start(mc.self, scope) && Ready(mc.self) && WellFormedAll(args)
    requires Fits(CompCall(args, mc, fs))
    ensures Laid(mc.self, CompCall(args, mc, fs), scope) && !LastIsCmp(CompCall(args, mc, fs))
    decreases args, 1
  {
    hide CallEnd, DestSafe, Extends, Fits, InScope, Pushed, Grown, PushedMany, PopMany;
    var all := CompArgs(args, mc.self);
    CallGrows(args, mc, fs);
    LayArgs(args, mc.self, scope);
    var p := PopMany(all, mc.self, |args|);
    LayPopMany(all, mc.self, |args|, scope);
    LayCallEnd(p, |args|, mc, fs, scope);
    ExtendsTrans(mc.self, all, p);
    LaidTrans(mc.self, p, CompCall(args, mc, fs), scope);
  }

  lemma LayPopMany(all: FState, self: FState, n: nat, scope: seq<Slot>)
    requires Grown(self, all) && PushedMany(self, all, n) && Start(self, scope) && Start(all, scope)
    ensures Laid(all, PopMany(all, self, n), scope)
  {
  }

  lemma LayArgs(args: seq<Expr>, fs: FState, scope: seq<Slot>)
    requires Start(fs, scope) && Ready(fs) && WellFormedAll(args) && Fits(CompArgs(args, fs))
    ensures Laid(fs, CompArgs(args, fs), scope)
    decreases args, 0
  {
    if args != [] {
      var fs1 := CompE(args[0], fs);
      var fs2 := MoveIfLocal(fs1, fs);
      OneReady(fs, fs2);
      assert Fits(fs2) && Fits(fs1);
      LayE(args[0], fs, scope);
      LayMoveIfLocal(fs1, fs, scope);
      LayArgs(args[1..], fs2, scope);
      LaidTrans(fs, fs1, fs2, scope);
      LaidTrans(fs, fs2, CompArgs(args, fs), scope);
    }
  }
}
