/** Compiled functions on a stream of bytes: `FunctionPrototype::Save` and `Load`. */
module Prototype {

  newtype Byte = b: int | 0 <= b < 256

  type Bytes = seq<Byte>

  const HEAD := 0x5351_4952
  const PART := 0x5041_5254
  const TAIL := 0x5441_494C

  // --- numbers as bytes, least significant first

  function Pow256(k: nat): nat {
    if k == 0 then 1 else 256 * Pow256(k - 1)
  }

  function LE(n: nat, k: nat): (b: Bytes)
    ensures |b| == k
    decreases k
  {
    if k == 0 then [] else [(n % 256) as Byte] + LE(n / 256, k - 1)
  }

  function FromLE(b: Bytes): nat {
    if b == [] then 0 else b[0] as int + 256 * FromLE(b[1..])
  }

  lemma {:induction false} FromTo(n: nat, k: nat)
    requires n < Pow256(k)
    ensures FromLE(LE(n, k)) == n
    decreases k
  {
    if k > 0 {
      FromTo(n / 256, k - 1);
      assert LE(n, k)[1..] == LE(n / 256, k - 1);
    }
  }

  /** Two's complement. */
  function Signed(n: nat, k: nat): int {
    if 2 * n >= Pow256(k) then n - Pow256(k) else n
  }

  predicate InRange(i: int, k: nat) {
    0 <= 2 * i + Pow256(k) && 2 * i < Pow256(k)
  }

  function Unsigned(i: int, k: nat): nat
    requires InRange(i, k)
  {
    if i < 0 then i + Pow256(k) else i
  }

  lemma SignedBack(i: int, k: nat)
    requires InRange(i, k)
    ensures Signed(FromLE(LE(Unsigned(i, k), k)), k) == i
  {
    FromTo(Unsigned(i, k), k);
  }

  // --- what is saved

  /** A literal or a name. Text is bytes; a float is its bit pattern. */
  datatype Obj = Null | Bool(n: int) | Int(i: int) | Float(bits: int) | Str(s: Bytes) | Unserializable

  /** `pad` stands for the four bytes behind the four-byte kind: eight are written. */
  datatype OuterVar = OuterVar(kind: int, pad: int, src: Obj, name: Obj)

  datatype LocalVarInfo = LocalVarInfo(name: Obj, pos: int, startOp: int, endOp: int)

  datatype LineInfo = LineInfo(line: int, op: int)

  datatype Instruction = Instruction(arg1: int, op: Byte, arg0: Byte, arg2: Byte, arg3: Byte)

  datatype Proto = Proto(
    sourcename: Obj, name: Obj,
    literals: seq<Obj>, parameters: seq<Obj>, outers: seq<OuterVar>, locals: seq<LocalVarInfo>,
    lines: seq<LineInfo>, defaults: seq<int>, code: seq<Instruction>, functions: seq<Proto>,
    stacksize: int, generator: bool, varparams: int)

  // --- numbers that fit their bytes

  predicate Word(i: int) {
    InRange(i, 8)
  }

  predicate Address(i: int) {
    0 <= i < Pow256(8)
  }

  predicate ObjOk(o: Obj) {
    match o
    case Null => true
    case Bool(n) => Word(n)
    case Int(i) => Word(i)
    case Float(bits) => 0 <= bits < Pow256(4)
    case Str(s) => Word(|s|)
    case Unserializable => true
  }

  predicate OuterOk(v: OuterVar) {
    0 <= v.kind < Pow256(4) && 0 <= v.pad < Pow256(4) && ObjOk(v.src) && ObjOk(v.name)
  }

  predicate LocalOk(v: LocalVarInfo) {
    ObjOk(v.name) && Address(v.pos) && Address(v.startOp) && Address(v.endOp)
  }

  predicate LineOk(l: LineInfo) {
    Word(l.line) && Word(l.op)
  }

  predicate CodeOk(i: Instruction) {
    InRange(i.arg1, 4)
  }

  predicate ProtoOk(p: Proto)
    decreases p, 0
  {
    && ObjOk(p.sourcename) && ObjOk(p.name)
    && (forall k :: 0 <= k < |p.literals| ==> ObjOk(p.literals[k]))
    && (forall k :: 0 <= k < |p.parameters| ==> ObjOk(p.parameters[k]))
    && (forall k :: 0 <= k < |p.outers| ==> OuterOk(p.outers[k]))
    && (forall k :: 0 <= k < |p.locals| ==> LocalOk(p.locals[k]))
    && (forall k :: 0 <= k < |p.lines| ==> LineOk(p.lines[k]))
    && (forall k :: 0 <= k < |p.defaults| ==> Word(p.defaults[k]))
    && (forall k :: 0 <= k < |p.code| ==> CodeOk(p.code[k]))
    && ProtosOk(p.functions)
    && Word(p.stacksize) && Word(p.varparams) && CountsOk(p)
  }

  predicate CountsOk(p: Proto) {
    && Word(|p.literals|) && Word(|p.parameters|) && Word(|p.outers|) && Word(|p.locals|)
    && Word(|p.lines|) && Word(|p.defaults|) && Word(|p.code|) && Word(|p.functions|)
  }

  predicate ProtosOk(ps: seq<Proto>)
    decreases ps, 1
  {
    ps == [] || (ProtoOk(ps[0]) && ProtosOk(ps[1..]))
  }

  // --- what can be saved

  predicate ObjSavable(o: Obj) {
    !o.Unserializable?
  }

  predicate OuterSavable(v: OuterVar) {
    ObjSavable(v.src) && ObjSavable(v.name)
  }

  predicate LocalSavable(v: LocalVarInfo) {
    ObjSavable(v.name)
  }

  /** Literals and names are null, booleans, numbers or strings, in nested functions too. */
  predicate Savable(p: Proto)
    decreases p, 0
  {
    SavableHere(p) && SavableAll(p.functions)
  }

  predicate SavableHere(p: Proto) {
    ObjSavable(p.sourcename) && ObjSavable(p.name) && SavableLists(p)
  }

  predicate SavableLists(p: Proto) {
    && (forall k :: 0 <= k < |p.literals| ==> ObjSavable(p.literals[k]))
    && (forall k :: 0 <= k < |p.parameters| ==> ObjSavable(p.parameters[k]))
    && (forall k :: 0 <= k < |p.outers| ==> OuterSavable(p.outers[k]))
    && (forall k :: 0 <= k < |p.locals| ==> LocalSavable(p.locals[k]))
  }

  predicate SavableAll(ps: seq<Proto>)
    decreases ps, 1
  {
    ps == [] || (Savable(ps[0]) && SavableAll(ps[1..]))
  }

  // --- writing; `rest` is what follows

  function Tag(t: nat): (b: Bytes)
    ensures |b| == 4
  {
    LE(t, 4)
  }

  function Int64(i: int): (b: Bytes)
    requires Word(i)
    ensures |b| == 8
  {
    LE(Unsigned(i, 8), 8)
  }

  function TypeTag(o: Obj): nat {
    match o
    case Null => 0x0100_0001
    case Int(_) => 0x0500_0002
    case Float(_) => 0x0500_0004
    case Bool(_) => 0x0100_0008
    case Str(_) => 0x0800_0010
    case Unserializable => 0
  }

  function EncObj(o: Obj, rest: Bytes): (b: Bytes)
    requires ObjOk(o)
    ensures |b| >= |rest|
  {
    Tag(TypeTag(o)) +
    match o
    case Str(s) => Int64(|s|) + (s + rest)
    case Bool(n) => Int64(n) + rest
    case Int(i) => Int64(i) + rest
    case Float(bits) => LE(bits, 4) + rest
    case _ => rest
  }

  function EncObjs(os: seq<Obj>, rest: Bytes): (b: Bytes)
    requires forall k :: 0 <= k < |os| ==> ObjOk(os[k])
    ensures |b| >= |rest|
  {
    if os == [] then rest else EncObj(os[0], EncObjs(os[1..], rest))
  }

  function EncOuter(v: OuterVar, rest: Bytes): (b: Bytes)
    requires OuterOk(v)
    ensures |b| >= |rest|
  {
    LE(v.kind, 4) + (LE(v.pad, 4) + EncObj(v.src, EncObj(v.name, rest)))
  }

  function EncOuters(vs: seq<OuterVar>, rest: Bytes): (b: Bytes)
    requires forall k :: 0 <= k < |vs| ==> OuterOk(vs[k])
    ensures |b| >= |rest|
  {
    if vs == [] then rest else EncOuter(vs[0], EncOuters(vs[1..], rest))
  }

  function EncLocal(v: LocalVarInfo, rest: Bytes): (b: Bytes)
    requires LocalOk(v)
    ensures |b| >= |rest|
  {
    EncObj(v.name, LE(v.pos, 8) + (LE(v.startOp, 8) + (LE(v.endOp, 8) + rest)))
  }

  function EncLocals(vs: seq<LocalVarInfo>, rest: Bytes): (b: Bytes)
    requires forall k :: 0 <= k < |vs| ==> LocalOk(vs[k])
    ensures |b| >= |rest|
  {
    if vs == [] then rest else EncLocal(vs[0], EncLocals(vs[1..], rest))
  }

  function EncLine(l: LineInfo): (b: Bytes)
    requires LineOk(l)
    ensures |b| == 16
  {
    Int64(l.line) + Int64(l.op)
  }

  function EncInstruction(i: Instruction): (b: Bytes)
    requires CodeOk(i)
    ensures |b| == 8
  {
    LE(Unsigned(i.arg1, 4), 4) + [i.op, i.arg0, i.arg2, i.arg3]
  }

  /** Line infos, default parameters and instructions are written as they lie in memory. */
  function EncLines(ls: seq<LineInfo>): (b: Bytes)
    requires forall k :: 0 <= k < |ls| ==> LineOk(ls[k])
    ensures |b| == 16 * |ls|
  {
    if ls == [] then []
    else
      assert LineOk(ls[0]);
      EncLine(ls[0]) + EncLines(ls[1..])
  }

  function EncInts(xs: seq<int>): (b: Bytes)
    requires forall k :: 0 <= k < |xs| ==> Word(xs[k])
    ensures |b| == 8 * |xs|
  {
    if xs == [] then [] else Int64(xs[0]) + EncInts(xs[1..])
  }

  function EncCode(xs: seq<Instruction>): (b: Bytes)
    requires forall k :: 0 <= k < |xs| ==> CodeOk(xs[k])
    ensures |b| == 8 * |xs|
  {
    if xs == [] then []
    else
      assert CodeOk(xs[0]);
      EncInstruction(xs[0]) + EncCode(xs[1..])
  }

  function EncCounts(p: Proto, rest: Bytes): (b: Bytes)
    requires CountsOk(p)
    ensures |b| >= |rest|
  {
    Int64(|p.literals|) + (Int64(|p.parameters|) + (Int64(|p.outers|) + (Int64(|p.locals|) +
    (Int64(|p.lines|) + (Int64(|p.defaults|) + (Int64(|p.code|) + (Int64(|p.functions|) + rest)))))))
  }

  function EncEnd(p: Proto, rest: Bytes): (b: Bytes)
    requires Word(p.stacksize) && Word(p.varparams)
    ensures |b| >= |rest|
  {
    Int64(p.stacksize) + ([if p.generator then 1 else 0] + (Int64(p.varparams) + rest))
  }

  /** From the line infos to the nested functions. */
  function EncBlocks(p: Proto, rest: Bytes): (b: Bytes)
    requires ProtoOk(p)
    ensures |b| >= |rest|
  {
    Tag(PART)
      + (EncLines(p.lines) + (Tag(PART) + (EncInts(p.defaults) + (Tag(PART) + (EncCode(p.code) + (Tag(PART) + rest))))))
  }

  function EncLists(p: Proto, rest: Bytes): (b: Bytes)
    requires ProtoOk(p)
    ensures |b| >= |rest|
  {
    Tag(PART)
      + EncObjs(p.literals,
      Tag(PART) + EncObjs(p.parameters, Tag(PART) + EncOuters(p.outers, Tag(PART) + EncLocals(p.locals, rest))))
  }

  function EncHeader(p: Proto, rest: Bytes): (b: Bytes)
    requires ProtoOk(p)
    ensures |b| >= |rest|
  {
    Tag(PART) + EncObj(p.sourcename, EncObj(p.name, Tag(PART) + EncCounts(p, rest)))
  }

  function EncProto(p: Proto, rest: Bytes): (b: Bytes)
    requires ProtoOk(p)
    ensures |b| >= |rest|
    decreases p, 0
  {
    EncHeader(p, EncLists(p, EncBlocks(p, EncProtos(p.functions, EncEnd(p, rest)))))
  }

  function EncProtos(ps: seq<Proto>, rest: Bytes): (b: Bytes)
    requires ProtosOk(ps)
    ensures |b| >= |rest|
    decreases ps, 1
  {
    if ps == [] then rest else EncProto(ps[0], EncProtos(ps[1..], rest))
  }

  // --- reading

  datatype Dec<+T> = Got(v: T, rest: Bytes) | Fail {
    predicate IsFailure() {
      Fail?
    }

    function PropagateFailure<U>(): Dec<U>
      requires Fail?
    {
      Fail
    }

    function Extract(): (T, Bytes)
      requires Got?
    {
      (v, rest)
    }
  }

  function DecBytes(b: Bytes, n: nat): (r: Dec<Bytes>)
    ensures r.Got? ==> |r.v| == n && |r.rest| == |b| - n
  {
    if |b| < n then Fail else Got(b[..n], b[n..])
  }

  function DecU(b: Bytes, k: nat): (r: Dec<nat>)
    ensures r.Got? ==> |r.rest| == |b| - k
  {
    if |b| < k then Fail else Got(FromLE(b[..k]), b[k..])
  }

  function DecInt64(b: Bytes): (r: Dec<int>)
    ensures r.Got? ==> |r.rest| == |b| - 8
  {
    if |b| < 8 then Fail else Got(Signed(FromLE(b[..8]), 8), b[8..])
  }

  /** A length or a count. */
  function DecCount(b: Bytes): (r: Dec<nat>)
    ensures r.Got? ==> |r.rest| == |b| - 8
  {
    var (n, b1) :- DecInt64(b);
    if n < 0 then Fail else Got(n, b1)
  }

  function DecTag(b: Bytes, t: nat): (r: Dec<()>)
    ensures r.Got? ==> |r.rest| == |b| - 4
  {
    var (u, b1) :- DecU(b, 4);
    if u == t then Got((), b1) else Fail
  }

  function DecObj(b: Bytes): (r: Dec<Obj>)
    ensures r.Got? ==> |r.rest| < |b|
  {
    var (t, b1) :- DecU(b, 4);
    if t == 0x0800_0010 then
      var (n, b2) :- DecCount(b1);
      var (s, b3) :- DecBytes(b2, n);
      Got(Str(s), b3)
    else if t == 0x0500_0002 then
      var (i, b2) :- DecInt64(b1);
      Got(Int(i), b2)
    else if t == 0x0100_0008 then
      var (n, b2) :- DecInt64(b1);
      Got(Bool(n), b2)
    else if t == 0x0500_0004 then
      var (bits, b2) :- DecU(b1, 4);
      Got(Float(bits), b2)
    else if t == 0x0100_0001 then Got(Null, b1)
    else Fail
  }

  function DecObjs(b: Bytes, n: nat, acc: seq<Obj>): (r: Dec<seq<Obj>>)
    ensures r.Got? ==> |r.rest| <= |b|
    decreases n
  {
    if n == 0 then Got(acc, b)
    else
      var (o, b1) :- DecObj(b);
      DecObjs(b1, n - 1, acc + [o])
  }

  function DecOuter(b: Bytes): (r: Dec<OuterVar>)
    ensures r.Got? ==> |r.rest| <= |b|
  {
    var (kind, b1) :- DecU(b, 8);
    var (src, b2) :- DecObj(b1);
    var (name, b3) :- DecObj(b2);
    Got(OuterVar(kind % Pow256(4), 0, src, name), b3)
  }

  function DecOuters(b: Bytes, n: nat, acc: seq<OuterVar>): (r: Dec<seq<OuterVar>>)
    ensures r.Got? ==> |r.rest| <= |b|
    decreases n
  {
    if n == 0 then Got(acc, b)
    else
      var (o, b1) :- DecOuter(b);
      DecOuters(b1, n - 1, acc + [o])
  }

  function DecLocal(b: Bytes): (r: Dec<LocalVarInfo>)
    ensures r.Got? ==> |r.rest| <= |b|
  {
    var (name, b1) :- DecObj(b);
    var (pos, b2) :- DecU(b1, 8);
    var (startOp, b3) :- DecU(b2, 8);
    var (endOp, b4) :- DecU(b3, 8);
    Got(LocalVarInfo(name, pos, startOp, endOp), b4)
  }

  function DecLocals(b: Bytes, n: nat, acc: seq<LocalVarInfo>): (r: Dec<seq<LocalVarInfo>>)
    ensures r.Got? ==> |r.rest| <= |b|
    decreases n
  {
    if n == 0 then Got(acc, b)
    else
      var (o, b1) :- DecLocal(b);
      DecLocals(b1, n - 1, acc + [o])
  }

  function Lines(b: Bytes): (ls: seq<LineInfo>)
    ensures |ls| == |b| / 16
  {
    if |b| < 16 then [] else [LineInfo(Signed(FromLE(b[..8]), 8), Signed(FromLE(b[8..16]), 8))] + Lines(b[16..])
  }

  function Ints(b: Bytes): (xs: seq<int>)
    ensures |xs| == |b| / 8
  {
    if |b| < 8 then [] else [Signed(FromLE(b[..8]), 8)] + Ints(b[8..])
  }

  function Code(b: Bytes): (xs: seq<Instruction>)
    ensures |xs| == |b| / 8
  {
    if |b| < 8 then [] else [Instruction(Signed(FromLE(b[..4]), 4), b[4], b[5], b[6], b[7])] + Code(b[8..])
  }

  datatype Counts = Counts(literals: nat, parameters: nat, outers: nat, locals: nat, lines: nat, defaults: nat,
    code: nat, functions: nat)

  function DecCounts(b: Bytes): (r: Dec<Counts>)
    ensures r.Got? ==> |r.rest| < |b|
  {
    var (n1, b1) :- DecCount(b);
    var (n2, b2) :- DecCount(b1);
    var (n3, b3) :- DecCount(b2);
    var (n4, b4) :- DecCount(b3);
    var (n5, b5) :- DecCount(b4);
    var (n6, b6) :- DecCount(b5);
    var (n7, b7) :- DecCount(b6);
    var (n8, b8) :- DecCount(b7);
    Got(Counts(n1, n2, n3, n4, n5, n6, n7, n8), b8)
  }

  const BLANK := Proto(Null, Null, [], [], [], [], [], [], [], [], 0, false, 0)

  function DecHeader(b: Bytes): (r: Dec<(Proto, Counts)>)
    ensures r.Got? ==> |r.rest| < |b|
  {
    var (_, b1) :- DecTag(b, PART);
    var (sourcename, b2) :- DecObj(b1);
    var (name, b3) :- DecObj(b2);
    var (_, b4) :- DecTag(b3, PART);
    var (n, b5) :- DecCounts(b4);
    Got((BLANK.(sourcename := sourcename, name := name), n), b5)
  }

  function DecLists(b: Bytes, p: Proto, n: Counts): (r: Dec<Proto>)
    ensures r.Got? ==> |r.rest| < |b|
  {
    var (_, b1) :- DecTag(b, PART);
    var (literals, b2) :- DecObjs(b1, n.literals, []);
    var (_, b3) :- DecTag(b2, PART);
    var (parameters, b4) :- DecObjs(b3, n.parameters, []);
    var (_, b5) :- DecTag(b4, PART);
    var (outers, b6) :- DecOuters(b5, n.outers, []);
    var (_, b7) :- DecTag(b6, PART);
    var (locals, b8) :- DecLocals(b7, n.locals, []);
    Got(p.(literals := literals, parameters := parameters, outers := outers, locals := locals), b8)
  }

  function DecBlocks(b: Bytes, p: Proto, n: Counts): (r: Dec<Proto>)
    ensures r.Got? ==> |r.rest| < |b|
  {
    var (_, b1) :- DecTag(b, PART);
    var (lines, b2) :- DecBytes(b1, 16 * n.lines);
    var (_, b3) :- DecTag(b2, PART);
    var (defaults, b4) :- DecBytes(b3, 8 * n.defaults);
    var (_, b5) :- DecTag(b4, PART);
    var (code, b6) :- DecBytes(b5, 8 * n.code);
    var (_, b7) :- DecTag(b6, PART);
    Got(p.(lines := Lines(lines), defaults := Ints(defaults), code := Code(code)), b7)
  }

  function DecEnd(b: Bytes, p: Proto): (r: Dec<Proto>)
    ensures r.Got? ==> |r.rest| < |b|
  {
    var (stacksize, b1) :- DecInt64(b);
    var (generator, b2) :- DecBytes(b1, 1);
    var (varparams, b3) :- DecInt64(b2);
    Got(p.(stacksize := stacksize, generator := generator[0] != 0, varparams := varparams), b3)
  }

  function DecProto(b: Bytes): (r: Dec<Proto>)
    ensures r.Got? ==> |r.rest| < |b|
    decreases |b|, 0
  {
    var (pn, b1) :- DecHeader(b);
    var (p1, b2) :- DecLists(b1, pn.0, pn.1);
    var (p2, b3) :- DecBlocks(b2, p1, pn.1);
    var (functions, b4) :- DecProtos(b3, pn.1.functions, []);
    DecEnd(b4, p2.(functions := functions))
  }

  function DecProtos(b: Bytes, n: nat, acc: seq<Proto>): (r: Dec<seq<Proto>>)
    ensures r.Got? ==> |r.rest| <= |b|
    decreases |b|, n + 1
  {
    if n == 0 then Got(acc, b)
    else
      var (p, b1) :- DecProto(b);
      DecProtos(b1, n - 1, acc + [p])
  }
}
