/** What is saved is loaded back, and nothing less than all of it is accepted. */
module SaveLoad {
  import opened Prototype

  // --- numbers, tags and objects

  lemma BytesBack(s: Bytes, rest: Bytes)
    ensures DecBytes(s + rest, |s|) == Got(s, rest)
  {
  }

  lemma UnsignedBack(n: nat, k: nat, rest: Bytes)
    requires n < Pow256(k)
    ensures DecU(LE(n, k) + rest, k) == Got(n, rest)
  {
    hide LE, FromLE, Pow256;
    FromTo(n, k);
    assert (LE(n, k) + rest)[..k] == LE(n, k) && (LE(n, k) + rest)[k..] == rest;
  }

  lemma TagBack(t: nat, rest: Bytes)
    requires t < 0x1_0000_0000
    ensures DecTag(Tag(t) + rest, t) == Got((), rest)
  {
    hide LE, FromLE;
    assert Pow256(4) == 0x1_0000_0000;
    UnsignedBack(t, 4, rest);
  }

  lemma Int64Back(i: int, rest: Bytes)
    requires Word(i)
    ensures DecInt64(Int64(i) + rest) == Got(i, rest)
  {
    hide LE, FromLE, Pow256, Unsigned, Signed, InRange;
    SignedBack(i, 8);
    var e := Int64(i);
    assert (e + rest)[..8] == e && (e + rest)[8..] == rest;
  }

  lemma CountBack(n: nat, rest: Bytes)
    requires Word(n)
    ensures DecCount(Int64(n) + rest) == Got(n, rest)
  {
    hide Int64, DecInt64, Word;
    Int64Back(n, rest);
  }

  lemma ObjBack(o: Obj, rest: Bytes)
    requires ObjOk(o) && ObjSavable(o)
    ensures DecObj(EncObj(o, rest)) == Got(o, rest)
  {
    hide DecU, DecInt64, DecCount, DecBytes, Int64, LE, Pow256, Word;
    assert Pow256(4) == 0x1_0000_0000 by {
      FourBytes();
    }
    match o {
      case Str(s) =>
        UnsignedBack(TypeTag(o), 4, Int64(|s|) + (s + rest));
        CountBack(|s|, s + rest);
        BytesBack(s, rest);
      case Bool(n) =>
        UnsignedBack(TypeTag(o), 4, Int64(n) + rest);
        Int64Back(n, rest);
      case Int(i) =>
        UnsignedBack(TypeTag(o), 4, Int64(i) + rest);
        Int64Back(i, rest);
      case Float(bits) =>
        UnsignedBack(TypeTag(o), 4, LE(bits, 4) + rest);
        UnsignedBack(bits, 4, rest);
      case Null => UnsignedBack(TypeTag(o), 4, rest);
    }
  }

  lemma FourBytes()
    ensures Pow256(4) == 0x1_0000_0000
  {
  }

  lemma {:induction false} ObjsBack(os: seq<Obj>, rest: Bytes, acc: seq<Obj>)
    requires forall k :: 0 <= k < |os| ==> ObjOk(os[k]) && ObjSavable(os[k])
    ensures DecObjs(EncObjs(os, rest), |os|, acc) == Got(acc + os, rest)
    decreases |os|
  {
    hide EncObj, DecObj, ObjOk, ObjSavable;
    if os == [] {
      assert acc + os == acc;
    } else {
      ObjBack(os[0], EncObjs(os[1..], rest));
      ObjsBack(os[1..], rest, acc + [os[0]]);
      assert acc + [os[0]] + os[1..] == acc + os;
    }
  }

  // --- captured variables and local variables

  lemma {:induction false} FromAppend(a: Bytes, b: Bytes)
    ensures FromLE(a + b) == FromLE(a) + Pow256(|a|) * FromLE(b)
    decreases |a|
  {
    if a == [] {
      assert a + b == b;
    } else {
      assert (a + b)[1..] == a[1..] + b;
      FromAppend(a[1..], b);
      Distribute(FromLE(a[1..]), Pow256(|a| - 1), FromLE(b));
    }
  }

  lemma Distribute(x: int, y: int, z: int)
    ensures 256 * (x + y * z) == 256 * x + (256 * y) * z
  {
  }

  /** Loading keeps the four bytes of the kind and drops those behind it. */
  function Bare(v: OuterVar): OuterVar {
    v.(pad := 0)
  }

  lemma OuterBack(v: OuterVar, rest: Bytes)
    requires OuterOk(v) && OuterSavable(v)
    ensures DecOuter(EncOuter(v, rest)) == Got(Bare(v), rest)
  {
    hide EncObj, DecObj, LE, FromLE, Pow256, ObjOk;
    var more := EncObj(v.src, EncObj(v.name, rest));
    var e := LE(v.kind, 4) + LE(v.pad, 4);
    FromAppend(LE(v.kind, 4), LE(v.pad, 4));
    FromTo(v.kind, 4);
    FromTo(v.pad, 4);
    FourBytes();
    assert FromLE(e) == v.kind + 0x1_0000_0000 * v.pad;
    assert EncOuter(v, rest) == e + more;
    assert (e + more)[..8] == e && (e + more)[8..] == more;
    ObjBack(v.src, EncObj(v.name, rest));
    ObjBack(v.name, rest);
  }

  function BareAll(vs: seq<OuterVar>): (r: seq<OuterVar>)
    ensures |r| == |vs| && forall k :: 0 <= k < |vs| ==> r[k] == Bare(vs[k])
  {
    if vs == [] then [] else [Bare(vs[0])] + BareAll(vs[1..])
  }

  lemma {:induction false} OutersBack(vs: seq<OuterVar>, rest: Bytes, acc: seq<OuterVar>)
    requires forall k :: 0 <= k < |vs| ==> OuterOk(vs[k]) && OuterSavable(vs[k])
    ensures DecOuters(EncOuters(vs, rest), |vs|, acc) == Got(acc + BareAll(vs), rest)
    decreases |vs|
  {
    hide EncOuter, DecOuter, OuterOk, Bare;
    if vs == [] {
      assert acc + BareAll(vs) == acc;
    } else {
      OuterBack(vs[0], EncOuters(vs[1..], rest));
      OutersBack(vs[1..], rest, acc + [Bare(vs[0])]);
      assert acc + [Bare(vs[0])] + BareAll(vs[1..]) == acc + BareAll(vs);
    }
  }

  lemma LocalBack(v: LocalVarInfo, rest: Bytes)
    requires LocalOk(v) && LocalSavable(v)
    ensures DecLocal(EncLocal(v, rest)) == Got(v, rest)
  {
    hide EncObj, DecObj, LE, DecU, Pow256, ObjOk;
    ObjBack(v.name, LE(v.pos, 8) + (LE(v.startOp, 8) + (LE(v.endOp, 8) + rest)));
    UnsignedBack(v.pos, 8, LE(v.startOp, 8) + (LE(v.endOp, 8) + rest));
    UnsignedBack(v.startOp, 8, LE(v.endOp, 8) + rest);
    UnsignedBack(v.endOp, 8, rest);
  }

  lemma {:induction false} LocalsBack(vs: seq<LocalVarInfo>, rest: Bytes, acc: seq<LocalVarInfo>)
    requires forall k :: 0 <= k < |vs| ==> LocalOk(vs[k]) && LocalSavable(vs[k])
    ensures DecLocals(EncLocals(vs, rest), |vs|, acc) == Got(acc + vs, rest)
    decreases |vs|
  {
    hide EncLocal, DecLocal, LocalOk;
    if vs == [] {
      assert acc + vs == acc;
    } else {
      LocalBack(vs[0], EncLocals(vs[1..], rest));
      LocalsBack(vs[1..], rest, acc + [vs[0]]);
      assert acc + [vs[0]] + vs[1..] == acc + vs;
    }
  }

  // --- blocks

  lemma {:induction false} LinesBack(ls: seq<LineInfo>)
    requires forall k :: 0 <= k < |ls| ==> LineOk(ls[k])
    ensures Lines(EncLines(ls)) == ls
    decreases |ls|
  {
    if ls != [] {
      hide LE, FromLE, Signed, Unsigned, InRange, Pow256;
      assert LineOk(ls[0]);
      LinesBack(ls[1..]);
      SignedBack(ls[0].line, 8);
      SignedBack(ls[0].op, 8);
      var e := EncLines(ls);
      assert e[..8] == Int64(ls[0].line) && e[8..16] == Int64(ls[0].op) && e[16..] == EncLines(ls[1..]);
    }
  }

  lemma {:induction false} IntsBack(xs: seq<int>)
    requires forall k :: 0 <= k < |xs| ==> Word(xs[k])
    ensures Ints(EncInts(xs)) == xs
    decreases |xs|
  {
    if xs != [] {
      hide LE, FromLE, Signed, Unsigned, InRange, Pow256;
      assert Word(xs[0]);
      IntsBack(xs[1..]);
      SignedBack(xs[0], 8);
      var e := EncInts(xs);
      assert e[..8] == Int64(xs[0]) && e[8..] == EncInts(xs[1..]);
    }
  }

  lemma {:induction false} CodeBack(xs: seq<Instruction>)
    requires forall k :: 0 <= k < |xs| ==> CodeOk(xs[k])
    ensures Code(EncCode(xs)) == xs
    decreases |xs|
  {
    if xs != [] {
      hide LE, FromLE, Signed, Unsigned, InRange, Pow256;
      assert CodeOk(xs[0]);
      CodeBack(xs[1..]);
      SignedBack(xs[0].arg1, 4);
      var e := EncCode(xs);
      var i := EncInstruction(xs[0]);
      assert e[..8] == i && e[..4] == i[..4] == LE(Unsigned(xs[0].arg1, 4), 4) && e[8..] == EncCode(xs[1..]);
      assert e[4] == i[4] && e[5] == i[5] && e[6] == i[6] && e[7] == i[7];
    }
  }

  // --- whole prototypes

  function CountsOf(p: Proto): Counts {
    Counts(|p.literals|, |p.parameters|, |p.outers|, |p.locals|, |p.lines|, |p.defaults|, |p.code|, |p.functions|)
  }

  lemma CountsBack(p: Proto, rest: Bytes)
    requires CountsOk(p)
    ensures DecCounts(EncCounts(p, rest)) == Got(CountsOf(p), rest)
  {
    hide Int64, DecCount, Word;
    var r8 := Int64(|p.functions|) + rest;
    var r7 := Int64(|p.code|) + r8;
    var r6 := Int64(|p.defaults|) + r7;
    var r5 := Int64(|p.lines|) + r6;
    var r4 := Int64(|p.locals|) + r5;
    var r3 := Int64(|p.outers|) + r4;
    var r2 := Int64(|p.parameters|) + r3;
    CountBack(|p.literals|, r2);
    CountBack(|p.parameters|, r3);
    CountBack(|p.outers|, r4);
    CountBack(|p.locals|, r5);
    CountBack(|p.lines|, r6);
    CountBack(|p.defaults|, r7);
    CountBack(|p.code|, r8);
    CountBack(|p.functions|, rest);
  }

  lemma HeaderBack(p: Proto, rest: Bytes)
    requires ProtoOk(p) && SavableHere(p)
    ensures DecHeader(EncHeader(p, rest))
      == Got((BLANK.(sourcename := p.sourcename, name := p.name), CountsOf(p)), rest)
  {
    hide Tag, DecTag, EncObj, DecObj, EncCounts, DecCounts;
    var r3 := EncCounts(p, rest);
    var r2 := EncObj(p.name, Tag(PART) + r3);
    TagBack(PART, EncObj(p.sourcename, r2));
    ObjBack(p.sourcename, r2);
    ObjBack(p.name, Tag(PART) + r3);
    TagBack(PART, r3);
    CountsBack(p, rest);
  }

  lemma ListsBack(p: Proto, q: Proto, rest: Bytes)
    requires ProtoOk(p) && SavableHere(p)
    ensures DecLists(EncLists(p, rest), q, CountsOf(p)) ==
      Got(q.(literals := p.literals, parameters := p.parameters, outers := BareAll(p.outers), locals := p.locals), rest)
  {
    hide Tag, DecTag, EncObjs, DecObjs, EncOuters, DecOuters, EncLocals, DecLocals, ObjOk, OuterOk, LocalOk;
    var r7 := EncLocals(p.locals, rest);
    var r5 := EncOuters(p.outers, Tag(PART) + r7);
    var r3 := EncObjs(p.parameters, Tag(PART) + r5);
    TagBack(PART, EncObjs(p.literals, Tag(PART) + r3));
    ObjsBack(p.literals, Tag(PART) + r3, []);
    TagBack(PART, r3);
    ObjsBack(p.parameters, Tag(PART) + r5, []);
    TagBack(PART, r5);
    OutersBack(p.outers, Tag(PART) + r7, []);
    TagBack(PART, r7);
    LocalsBack(p.locals, rest, []);
    assert [] + p.literals == p.literals && [] + p.parameters == p.parameters
      && [] + BareAll(p.outers) == BareAll(p.outers) && [] + p.locals == p.locals;
  }

  lemma BlocksBack(p: Proto, q: Proto, rest: Bytes)
    requires ProtoOk(p)
    ensures DecBlocks(EncBlocks(p, rest), q, CountsOf(p))
      == Got(q.(lines := p.lines, defaults := p.defaults, code := p.code), rest)
  {
    hide Tag, DecTag, EncLines, EncInts, EncCode, DecBytes, Lines, Ints, Code, LineOk, CodeOk, Word;
    var r7 := Tag(PART) + rest;
    var r5 := Tag(PART) + (EncCode(p.code) + r7);
    var r3 := Tag(PART) + (EncInts(p.defaults) + r5);
    TagBack(PART, EncLines(p.lines) + r3);
    BytesBack(EncLines(p.lines), r3);
    TagBack(PART, EncInts(p.defaults) + r5);
    BytesBack(EncInts(p.defaults), r5);
    TagBack(PART, EncCode(p.code) + r7);
    BytesBack(EncCode(p.code), r7);
    TagBack(PART, rest);
    LinesBack(p.lines);
    IntsBack(p.defaults);
    CodeBack(p.code);
  }

  lemma EndBack(p: Proto, q: Proto, rest: Bytes)
    requires Word(p.stacksize) && Word(p.varparams)
    ensures DecEnd(EncEnd(p, rest), q)
      == Got(q.(stacksize := p.stacksize, generator := p.generator, varparams := p.varparams), rest)
  {
    hide Int64, DecInt64, Word, DecBytes;
    var g: Bytes := [if p.generator then 1 else 0];
    var r2 := Int64(p.varparams) + rest;
    Int64Back(p.stacksize, g + r2);
    BytesBack(g, r2);
    Int64Back(p.varparams, rest);
  }

  /** A prototype as it is loaded: all of it, but for the bytes behind the kinds of captured variables. */
  function BareProto(p: Proto): Proto
    decreases p, 0
  {
    p.(outers := BareAll(p.outers), functions := BareProtos(p.functions))
  }

  function BareProtos(ps: seq<Proto>): seq<Proto>
    decreases ps, 1
  {
    if ps == [] then [] else [BareProto(ps[0])] + BareProtos(ps[1..])
  }

  /** Loading what was saved gives it back, to any depth of nested functions, and leaves what follows. */
  lemma {:induction false} ProtoBack(p: Proto, rest: Bytes)
    requires ProtoOk(p) && Savable(p)
    ensures DecProto(EncProto(p, rest)) == Got(BareProto(p), rest)
    decreases p, 0
  {
    hide EncHeader, DecHeader, EncLists, DecLists, EncBlocks, DecBlocks, EncEnd, DecEnd, EncProtos, DecProtos, ObjOk,
      OuterOk, LocalOk, LineOk, CodeOk,
      Word, CountsOk, ProtosOk, BareAll, BareProtos;
    Parts(p);
    var r4 := EncEnd(p, rest);
    var r3 := EncProtos(p.functions, r4);
    var r2 := EncBlocks(p, r3);
    var q0 := BLANK.(sourcename := p.sourcename, name := p.name);
    HeaderBack(p, EncLists(p, r2));
    ListsBack(p, q0, r2);
    var q1 := q0.(literals := p.literals, parameters := p.parameters, outers := BareAll(p.outers), locals := p.locals);
    BlocksBack(p, q1, r3);
    var q2 := q1.(lines := p.lines, defaults := p.defaults, code := p.code);
    ProtosBack(p.functions, r4, []);
    assert [] + BareProtos(p.functions) == BareProtos(p.functions);
    EndBack(p, q2.(functions := BareProtos(p.functions)), rest);
  }

  lemma Parts(p: Proto)
    requires ProtoOk(p)
    ensures ProtosOk(p.functions) && Word(p.stacksize) && Word(p.varparams) && CountsOk(p)
  {
  }

  lemma {:induction false} ProtosBack(ps: seq<Proto>, rest: Bytes, acc: seq<Proto>)
    requires ProtosOk(ps) && SavableAll(ps)
    ensures DecProtos(EncProtos(ps, rest), |ps|, acc) == Got(acc + BareProtos(ps), rest)
    decreases ps, 1
  {
    hide EncProto, DecProto, ProtoOk, BareProto;
    if ps == [] {
      assert acc + BareProtos(ps) == acc;
    } else {
      ProtoBack(ps[0], EncProtos(ps[1..], rest));
      ProtosBack(ps[1..], rest, acc + [BareProto(ps[0])]);
      assert acc + [BareProto(ps[0])] + BareProtos(ps[1..]) == acc + BareProtos(ps);
    }
  }

  // --- a stream that ends early

  /** What is read does not depend on what follows. */
  ghost predicate Goes<T(!new)>(r: Dec<T>, r': Dec<T>, more: Bytes) {
    r.Got? ==> r' == Got(r.v, r.rest + more)
  }

  lemma Front(b: Bytes, more: Bytes, n: nat)
    requires n <= |b|
    ensures (b + more)[..n] == b[..n] && (b + more)[n..] == b[n..] + more
  {
  }

  lemma MoreBytes(b: Bytes, n: nat, more: Bytes)
    ensures Goes(DecBytes(b, n), DecBytes(b + more, n), more)
  {
    if n <= |b| {
      Front(b, more, n);
    }
  }

  lemma MoreU(b: Bytes, k: nat, more: Bytes)
    ensures Goes(DecU(b, k), DecU(b + more, k), more)
  {
    if k <= |b| {
      Front(b, more, k);
    }
  }

  lemma MoreInt64(b: Bytes, more: Bytes)
    ensures Goes(DecInt64(b), DecInt64(b + more), more)
  {
    hide Signed, FromLE;
    if 8 <= |b| {
      Front(b, more, 8);
    }
  }

  lemma MoreCount(b: Bytes, more: Bytes)
    ensures Goes(DecCount(b), DecCount(b + more), more)
  {
    hide DecInt64;
    MoreInt64(b, more);
  }

  lemma MoreTag(b: Bytes, t: nat, more: Bytes)
    ensures Goes(DecTag(b, t), DecTag(b + more, t), more)
  {
    hide DecU;
    MoreU(b, 4, more);
  }

  lemma MoreObj(b: Bytes, more: Bytes)
    ensures Goes(DecObj(b), DecObj(b + more), more)
  {
    hide DecU, DecInt64, DecCount, DecBytes;
    MoreU(b, 4, more);
    var r := DecU(b, 4);
    if r.Got? {
      MoreCount(r.rest, more);
      MoreInt64(r.rest, more);
      MoreU(r.rest, 4, more);
      var n := DecCount(r.rest);
      if n.Got? {
        MoreBytes(n.rest, n.v, more);
      }
    }
  }

  lemma {:induction false} MoreObjs(b: Bytes, n: nat, acc: seq<Obj>, more: Bytes)
    ensures Goes(DecObjs(b, n, acc), DecObjs(b + more, n, acc), more)
    decreases n
  {
    hide DecObj;
    if n > 0 {
      MoreObj(b, more);
      var r := DecObj(b);
      if r.Got? {
        MoreObjs(r.rest, n - 1, acc + [r.v], more);
      }
    }
  }

  lemma MoreOuter(b: Bytes, more: Bytes)
    ensures Goes(DecOuter(b), DecOuter(b + more), more)
  {
    hide DecU, DecObj, Pow256;
    MoreU(b, 8, more);
    var kind := DecU(b, 8);
    if kind.Got? {
      MoreObj(kind.rest, more);
      var src := DecObj(kind.rest);
      if src.Got? {
        MoreObj(src.rest, more);
      }
    }
  }

  lemma {:induction false} MoreOuters(b: Bytes, n: nat, acc: seq<OuterVar>, more: Bytes)
    ensures Goes(DecOuters(b, n, acc), DecOuters(b + more, n, acc), more)
    decreases n
  {
    hide DecOuter;
    if n > 0 {
      MoreOuter(b, more);
      var r := DecOuter(b);
      if r.Got? {
        MoreOuters(r.rest, n - 1, acc + [r.v], more);
      }
    }
  }

  lemma MoreLocal(b: Bytes, more: Bytes)
    ensures Goes(DecLocal(b), DecLocal(b + more), more)
  {
    hide DecU, DecObj;
    MoreObj(b, more);
    var name := DecObj(b);
    if name.Got? {
      MoreU(name.rest, 8, more);
      var pos := DecU(name.rest, 8);
      if pos.Got? {
        MoreU(pos.rest, 8, more);
        var startOp := DecU(pos.rest, 8);
        if startOp.Got? {
          MoreU(startOp.rest, 8, more);
        }
      }
    }
  }

  lemma {:induction false} MoreLocals(b: Bytes, n: nat, acc: seq<LocalVarInfo>, more: Bytes)
    ensures Goes(DecLocals(b, n, acc), DecLocals(b + more, n, acc), more)
    decreases n
  {
    hide DecLocal;
    if n > 0 {
      MoreLocal(b, more);
      var r := DecLocal(b);
      if r.Got? {
        MoreLocals(r.rest, n - 1, acc + [r.v], more);
      }
    }
  }

  lemma MoreCounts(b: Bytes, more: Bytes)
    ensures Goes(DecCounts(b), DecCounts(b + more), more)
  {
    hide DecCount;
    MoreCount(b, more);
    var r1 := DecCount(b);
    if r1.Got? {
      MoreCount(r1.rest, more);
      var r2 := DecCount(r1.rest);
      if r2.Got? {
        MoreCount(r2.rest, more);
        var r3 := DecCount(r2.rest);
        if r3.Got? {
          MoreCount(r3.rest, more);
          var r4 := DecCount(r3.rest);
          if r4.Got? {
            MoreCount(r4.rest, more);
            var r5 := DecCount(r4.rest);
            if r5.Got? {
              MoreCount(r5.rest, more);
              var r6 := DecCount(r5.rest);
              if r6.Got? {
                MoreCount(r6.rest, more);
                var r7 := DecCount(r6.rest);
                if r7.Got? {
                  MoreCount(r7.rest, more);
                }
              }
            }
          }
        }
      }
    }
  }

  lemma MoreHeader(b: Bytes, more: Bytes)
    ensures Goes(DecHeader(b), DecHeader(b + more), more)
  {
    hide DecTag, DecObj, DecCounts;
    MoreTag(b, PART, more);
    var tag := DecTag(b, PART);
    if tag.Got? {
      MoreObj(tag.rest, more);
      var source := DecObj(tag.rest);
      if source.Got? {
        MoreObj(source.rest, more);
        var name := DecObj(source.rest);
        if name.Got? {
          MoreTag(name.rest, PART, more);
          var tag' := DecTag(name.rest, PART);
          if tag'.Got? {
            MoreCounts(tag'.rest, more);
          }
        }
      }
    }
  }

  lemma MoreLists(b: Bytes, p: Proto, n: Counts, more: Bytes)
    ensures Goes(DecLists(b, p, n), DecLists(b + more, p, n), more)
  {
    hide DecTag, DecObjs, DecOuters, DecLocals;
    MoreTag(b, PART, more);
    var t1 := DecTag(b, PART);
    if t1.Got? {
      MoreObjs(t1.rest, n.literals, [], more);
      var literals := DecObjs(t1.rest, n.literals, []);
      if literals.Got? {
        MoreTag(literals.rest, PART, more);
        var t2 := DecTag(literals.rest, PART);
        if t2.Got? {
          MoreObjs(t2.rest, n.parameters, [], more);
          var parameters := DecObjs(t2.rest, n.parameters, []);
          if parameters.Got? {
            MoreTail(parameters.rest, n, more);
          }
        }
      }
    }
  }

  lemma MoreTail(b: Bytes, n: Counts, more: Bytes)
    ensures Goes(DecTag(b, PART), DecTag(b + more, PART), more)
    ensures var t := DecTag(b, PART); t.Got? ==>
      && Goes(DecOuters(t.rest, n.outers, []), DecOuters(t.rest + more, n.outers, []), more)
      && var o := DecOuters(t.rest, n.outers, []); o.Got? ==>
        && Goes(DecTag(o.rest, PART), DecTag(o.rest + more, PART), more)
        && var t' := DecTag(o.rest, PART); t'.Got? ==>
        Goes(DecLocals(t'.rest, n.locals, []), DecLocals(t'.rest + more, n.locals, []), more)
  {
    hide DecTag, DecOuters, DecLocals, Goes;
    MoreTag(b, PART, more);
    var t := DecTag(b, PART);
    if t.Got? {
      MoreOuters(t.rest, n.outers, [], more);
      var o := DecOuters(t.rest, n.outers, []);
      if o.Got? {
        MoreTag(o.rest, PART, more);
        var t' := DecTag(o.rest, PART);
        if t'.Got? {
          MoreLocals(t'.rest, n.locals, [], more);
        }
      }
    }
  }

  lemma MoreBlocks(b: Bytes, p: Proto, n: Counts, more: Bytes)
    ensures Goes(DecBlocks(b, p, n), DecBlocks(b + more, p, n), more)
  {
    hide DecTag, DecBytes, Lines, Ints, Code;
    MoreTag(b, PART, more);
    var t1 := DecTag(b, PART);
    if t1.Got? {
      MoreBytes(t1.rest, 16 * n.lines, more);
      var lines := DecBytes(t1.rest, 16 * n.lines);
      if lines.Got? {
        MoreTag(lines.rest, PART, more);
        var t2 := DecTag(lines.rest, PART);
        if t2.Got? {
          MoreBytes(t2.rest, 8 * n.defaults, more);
          var defaults := DecBytes(t2.rest, 8 * n.defaults);
          if defaults.Got? {
            MoreTag(defaults.rest, PART, more);
            var t3 := DecTag(defaults.rest, PART);
            if t3.Got? {
              MoreBytes(t3.rest, 8 * n.code, more);
              var code := DecBytes(t3.rest, 8 * n.code);
              if code.Got? {
                MoreTag(code.rest, PART, more);
              }
            }
          }
        }
      }
    }
  }

  lemma MoreEnd(b: Bytes, p: Proto, more: Bytes)
    ensures Goes(DecEnd(b, p), DecEnd(b + more, p), more)
  {
    hide DecInt64, DecBytes;
    MoreInt64(b, more);
    var stacksize := DecInt64(b);
    if stacksize.Got? {
      MoreBytes(stacksize.rest, 1, more);
      var generator := DecBytes(stacksize.rest, 1);
      if generator.Got? {
        MoreInt64(generator.rest, more);
      }
    }
  }

  lemma {:induction false} MoreProto(b: Bytes, more: Bytes)
    ensures Goes(DecProto(b), DecProto(b + more), more)
    decreases |b|, 0
  {
    hide DecHeader, DecLists, DecBlocks, DecProtos, DecEnd;
    MoreHeader(b, more);
    var header := DecHeader(b);
    if header.Got? {
      var n := header.v.1;
      MoreLists(header.rest, header.v.0, n, more);
      var lists := DecLists(header.rest, header.v.0, n);
      if lists.Got? {
        MoreBlocks(lists.rest, lists.v, n, more);
        var blocks := DecBlocks(lists.rest, lists.v, n);
        if blocks.Got? {
          MoreProtos(blocks.rest, n.functions, [], more);
          var functions := DecProtos(blocks.rest, n.functions, []);
          if functions.Got? {
            MoreEnd(functions.rest, blocks.v.(functions := functions.v), more);
          }
        }
      }
    }
  }

  lemma {:induction false} MoreProtos(b: Bytes, n: nat, acc: seq<Proto>, more: Bytes)
    ensures Goes(DecProtos(b, n, acc), DecProtos(b + more, n, acc), more)
    decreases |b|, n + 1
  {
    hide DecProto;
    if n > 0 {
      MoreProto(b, more);
      var r := DecProto(b);
      if r.Got? {
        MoreProtos(r.rest, n - 1, acc + [r.v], more);
      }
    }
  }

  /** A stream that stops anywhere before its end is refused. */
  lemma Truncated(p: Proto, b: Bytes, more: Bytes)
    requires ProtoOk(p) && Savable(p) && EncProto(p, []) == b + more && more != []
    ensures DecProto(b) == Fail
  {
    hide EncProto, DecProto;
    ProtoBack(p, []);
    MoreProto(b, more);
  }
}
