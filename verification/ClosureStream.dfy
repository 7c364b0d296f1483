/** Saving and loading on a stream, with the loops and checks of the original: every write may be refused, and
    every read may come to the end of the data. */
module ClosureStream {
  import opened Prototype
  import opened SaveLoad

  class LVStream {
    var data: Bytes
    var pos: nat
    const room: nat             // how much the writer takes

    constructor (data: Bytes, room: nat)
      ensures this.data == data && this.room == room && pos == 0
    {
      this.data, this.room, pos := data, room, 0;
    }

    ghost predicate Valid()
      reads this
    {
      pos <= |data|
    }

    /** What is still to be read. */
    ghost function Left(): Bytes
      requires Valid()
      reads this
    {
      data[pos..]
    }

    // --- writing; `rest` is what is still to be written after it

    method SafeWrite(b: Bytes, ghost rest: Bytes) returns (ok: bool)
      modifies this`data
      ensures ok ==> data == old(data) + b && data + rest == old(data) + (b + rest)
      ensures ok <==> |old(data)| + |b| <= room
      ensures old(data) <= data
    {
      if |data| + |b| > room {
        return false;
      }
      data := data + b;
      return true;
    }

    method WriteTag(t: nat, ghost rest: Bytes) returns (ok: bool)
      modifies this`data
      ensures ok ==> data + rest == old(data) + (Tag(t) + rest) && |data| <= room
      ensures !ok ==> |old(data)| + |Tag(t) + rest| > room + |rest|
    {
      ok := SafeWrite(Tag(t), rest);
    }

    /** Fails for what cannot be saved. */
    method WriteObject(o: Obj, ghost rest: Bytes) returns (ok: bool)
      requires ObjOk(o)
      modifies this`data
      ensures ok ==> ObjSavable(o) && data + rest == old(data) + EncObj(o, rest)
      ensures !ok ==> !ObjSavable(o) || |old(data)| + |EncObj(o, rest)| > room + |rest|
    {
      if o.Unserializable? {
        return false;
      }
      ghost var e := EncObj(o, rest);
      ghost var more := e[4..];
      assert e == Tag(TypeTag(o)) + more;
      ok := WriteTag(TypeTag(o), more);
      if ok {
        match o {
          case Str(s) =>
            ok := SafeWrite(Int64(|s|), s + rest);
            if ok {
              ok := SafeWrite(s, rest);
            }
          case Bool(n) => ok := SafeWrite(Int64(n), rest);
          case Int(i) => ok := SafeWrite(Int64(i), rest);
          case Float(bits) => ok := SafeWrite(LE(bits, 4), rest);
          case Null =>
        }
      }
    }

    method WriteObjects(os: seq<Obj>, ghost rest: Bytes) returns (ok: bool)
      requires forall k :: 0 <= k < |os| ==> ObjOk(os[k])
      modifies this`data
      ensures ok ==> (forall k :: 0 <= k < |os| ==> ObjSavable(os[k])) && data + rest == old(data) + EncObjs(os, rest)
      ensures !ok ==>
        !(forall k :: 0 <= k < |os| ==> ObjSavable(os[k])) || |old(data)| + |EncObjs(os, rest)| > room + |rest|
    {
      hide EncObj, ObjOk;
      var i := 0;
      while i < |os|
        invariant 0 <= i <= |os| && (forall k :: 0 <= k < i ==> ObjSavable(os[k]))
        invariant data + EncObjs(os[i..], rest) == old(data) + EncObjs(os, rest)
      {
        assert os[i..][1..] == os[i + 1..];
        ok := WriteObject(os[i], EncObjs(os[i + 1..], rest));
        if !ok {
          return;
        }
        i := i + 1;
      }
      ok := true;
    }

    method WriteOuters(vs: seq<OuterVar>, ghost rest: Bytes) returns (ok: bool)
      requires forall k :: 0 <= k < |vs| ==> OuterOk(vs[k])
      modifies this`data
      ensures ok ==>
        (forall k :: 0 <= k < |vs| ==> OuterSavable(vs[k])) && data + rest == old(data) + EncOuters(vs, rest)
      ensures !ok ==>
        !(forall k :: 0 <= k < |vs| ==> OuterSavable(vs[k])) || |old(data)| + |EncOuters(vs, rest)| > room + |rest|
    {
      hide EncObj, EncOuter;
      var i := 0;
      while i < |vs|
        invariant 0 <= i <= |vs| && (forall k :: 0 <= k < i ==> OuterSavable(vs[k]))
        invariant data + EncOuters(vs[i..], rest) == old(data) + EncOuters(vs, rest)
      {
        assert vs[i..][1..] == vs[i + 1..];
        ok := WriteOuter(vs[i], EncOuters(vs[i + 1..], rest));
        if !ok {
          return;
        }
        i := i + 1;
      }
      ok := true;
    }

    /** Eight bytes from where the four-byte kind is. */
    method WriteOuter(v: OuterVar, ghost rest: Bytes) returns (ok: bool)
      requires OuterOk(v)
      modifies this`data
      ensures ok ==> OuterSavable(v) && data + rest == old(data) + EncOuter(v, rest)
      ensures !ok ==> !OuterSavable(v) || |old(data)| + |EncOuter(v, rest)| > room + |rest|
    {
      hide EncObj;
      ghost var more := EncObj(v.src, EncObj(v.name, rest));
      assert LE(v.kind, 4) + (LE(v.pad, 4) + more) == (LE(v.kind, 4) + LE(v.pad, 4)) + more;
      ok := SafeWrite(LE(v.kind, 4) + LE(v.pad, 4), more);
      if ok {
        ok := WriteObject(v.src, EncObj(v.name, rest));
      }
      if ok {
        ok := WriteObject(v.name, rest);
      }
    }

    method WriteLocals(vs: seq<LocalVarInfo>, ghost rest: Bytes) returns (ok: bool)
      requires forall k :: 0 <= k < |vs| ==> LocalOk(vs[k])
      modifies this`data
      ensures ok ==>
        (forall k :: 0 <= k < |vs| ==> LocalSavable(vs[k])) && data + rest == old(data) + EncLocals(vs, rest)
      ensures !ok ==>
        !(forall k :: 0 <= k < |vs| ==> LocalSavable(vs[k])) || |old(data)| + |EncLocals(vs, rest)| > room + |rest|
    {
      hide EncObj, EncLocal;
      var i := 0;
      while i < |vs|
        invariant 0 <= i <= |vs| && (forall k :: 0 <= k < i ==> LocalSavable(vs[k]))
        invariant data + EncLocals(vs[i..], rest) == old(data) + EncLocals(vs, rest)
      {
        assert vs[i..][1..] == vs[i + 1..];
        ok := WriteLocal(vs[i], EncLocals(vs[i + 1..], rest));
        if !ok {
          return;
        }
        i := i + 1;
      }
      ok := true;
    }

    method WriteLocal(v: LocalVarInfo, ghost rest: Bytes) returns (ok: bool)
      requires LocalOk(v)
      modifies this`data
      ensures ok ==> LocalSavable(v) && data + rest == old(data) + EncLocal(v, rest)
      ensures !ok ==> !LocalSavable(v) || |old(data)| + |EncLocal(v, rest)| > room + |rest|
    {
      hide EncObj;
      ok := WriteObject(v.name, LE(v.pos, 8) + (LE(v.startOp, 8) + (LE(v.endOp, 8) + rest)));
      if ok {
        ok := SafeWrite(LE(v.pos, 8), LE(v.startOp, 8) + (LE(v.endOp, 8) + rest));
      }
      if ok {
        ok := SafeWrite(LE(v.startOp, 8), LE(v.endOp, 8) + rest);
      }
      if ok {
        ok := SafeWrite(LE(v.endOp, 8), rest);
      }
    }

    /** The eight counts. */
    method WriteCounts(p: Proto, ghost rest: Bytes) returns (ok: bool)
      requires CountsOk(p)
      modifies this`data
      ensures ok ==> data + rest == old(data) + EncCounts(p, rest)
      ensures !ok ==> |old(data)| + |EncCounts(p, rest)| > room + |rest|
    {
      hide Int64, Word;
      ghost var r8 := Int64(|p.functions|) + rest;
      ghost var r7 := Int64(|p.code|) + r8;
      ghost var r6 := Int64(|p.defaults|) + r7;
      ghost var r5 := Int64(|p.lines|) + r6;
      ghost var r4 := Int64(|p.locals|) + r5;
      ghost var r3 := Int64(|p.outers|) + r4;
      ok := SafeWrite(Int64(|p.literals|), Int64(|p.parameters|) + r3);
      if ok {
        ok := SafeWrite(Int64(|p.parameters|), r3);
      }
      if ok {
        ok := SafeWrite(Int64(|p.outers|), r4);
      }
      if ok {
        ok := SafeWrite(Int64(|p.locals|), r5);
      }
      if ok {
        ok := SafeWrite(Int64(|p.lines|), r6);
      }
      if ok {
        ok := SafeWrite(Int64(|p.defaults|), r7);
      }
      if ok {
        ok := SafeWrite(Int64(|p.code|), r8);
      }
      if ok {
        ok := SafeWrite(Int64(|p.functions|), rest);
      }
    }

    method SaveHeader(p: Proto, ghost rest: Bytes) returns (ok: bool)
      requires ProtoOk(p)
      modifies this`data
      ensures ok ==> ObjSavable(p.sourcename) && ObjSavable(p.name) && data + rest == old(data) + EncHeader(p, rest)
      ensures !ok ==>
        !(ObjSavable(p.sourcename) && ObjSavable(p.name)) || |old(data)| + |EncHeader(p, rest)| > room + |rest|
    {
      hide EncObj, EncCounts, Tag;
      ghost var r3 := EncCounts(p, rest);
      ghost var r2 := EncObj(p.name, Tag(PART) + r3);
      ok := WriteTag(PART, EncObj(p.sourcename, r2));
      if ok {
        ok := WriteObject(p.sourcename, r2);
      }
      if ok {
        ok := WriteObject(p.name, Tag(PART) + r3);
      }
      if ok {
        ok := WriteTag(PART, r3);
      }
      if ok {
        ok := WriteCounts(p, rest);
      }
    }

    method SaveLists(p: Proto, ghost rest: Bytes) returns (ok: bool)
      requires ProtoOk(p)
      modifies this`data
      ensures ok ==> SavableLists(p) && data + rest == old(data) + EncLists(p, rest)
      ensures !ok ==> !SavableLists(p) || |old(data)| + |EncLists(p, rest)| > room + |rest|
    {
      hide EncObjs, EncOuters, EncLocals, Tag, ObjOk, OuterOk, LocalOk;
      ghost var r7 := EncLocals(p.locals, rest);
      ghost var r5 := EncOuters(p.outers, Tag(PART) + r7);
      ghost var r3 := EncObjs(p.parameters, Tag(PART) + r5);
      ok := WriteTag(PART, EncObjs(p.literals, Tag(PART) + r3));
      if ok {
        ok := WriteObjects(p.literals, Tag(PART) + r3);
      }
      if ok {
        ok := WriteTag(PART, r3);
      }
      if ok {
        ok := WriteObjects(p.parameters, Tag(PART) + r5);
      }
      if ok {
        ok := WriteTag(PART, r5);
      }
      if ok {
        ok := WriteOuters(p.outers, Tag(PART) + r7);
      }
      if ok {
        ok := WriteTag(PART, r7);
      }
      if ok {
        ok := WriteLocals(p.locals, rest);
      }
    }

    method SaveBlocks(p: Proto, ghost rest: Bytes) returns (ok: bool)
      requires ProtoOk(p)
      modifies this`data
      ensures ok ==> data + rest == old(data) + EncBlocks(p, rest)
      ensures !ok ==> |old(data)| + |EncBlocks(p, rest)| > room + |rest|
    {
      hide EncLines, EncInts, EncCode, Tag, LineOk, CodeOk, Word;
      ghost var r7 := Tag(PART) + rest;
      ghost var r5 := Tag(PART) + (EncCode(p.code) + r7);
      ghost var r3 := Tag(PART) + (EncInts(p.defaults) + r5);
      ok := WriteTag(PART, EncLines(p.lines) + r3);
      if ok {
        ok := SafeWrite(EncLines(p.lines), r3);
      }
      if ok {
        ok := WriteTag(PART, EncInts(p.defaults) + r5);
      }
      if ok {
        ok := SafeWrite(EncInts(p.defaults), r5);
      }
      if ok {
        ok := WriteTag(PART, EncCode(p.code) + r7);
      }
      if ok {
        ok := SafeWrite(EncCode(p.code), r7);
      }
      if ok {
        ok := WriteTag(PART, rest);
      }
    }

    method SaveEnd(p: Proto, ghost rest: Bytes) returns (ok: bool)
      requires Word(p.stacksize) && Word(p.varparams)
      modifies this`data
      ensures ok ==> data + rest == old(data) + EncEnd(p, rest)
      ensures !ok ==> |old(data)| + |EncEnd(p, rest)| > room + |rest|
    {
      hide Int64, Word;
      var generator: Bytes := [if p.generator then 1 else 0];
      ok := SafeWrite(Int64(p.stacksize), generator + (Int64(p.varparams) + rest));
      if ok {
        ok := SafeWrite(generator, Int64(p.varparams) + rest);
      }
      if ok {
        ok := SafeWrite(Int64(p.varparams), rest);
      }
    }

    /** Fails, at the latest when it comes to it, for a literal or name that cannot be saved. */
    method Save(p: Proto, ghost rest: Bytes) returns (ok: bool)
      requires ProtoOk(p)
      modifies this`data
      ensures ok ==> Savable(p) && data + rest == old(data) + EncProto(p, rest)
      ensures !ok ==> !Savable(p) || |old(data)| + |EncProto(p, rest)| > room + |rest|
      decreases p, 0
    {
      hide EncHeader, EncLists, EncBlocks, EncProtos, EncEnd, ObjOk, OuterOk, LocalOk, LineOk, CodeOk, Word, CountsOk,
        ProtosOk, ObjSavable, SavableLists;
      Parts(p);
      ghost var r4 := EncEnd(p, rest);
      ghost var r3 := EncProtos(p.functions, r4);
      ghost var r2 := EncBlocks(p, r3);
      ok := SaveHeader(p, EncLists(p, r2));
      if ok {
        ok := SaveLists(p, r2);
      }
      if ok {
        ok := SaveBlocks(p, r3);
      }
      if ok {
        ok := SaveFunctions(p.functions, r4);
      }
      if ok {
        ok := SaveEnd(p, rest);
      }
    }

    method SaveFunctions(ps: seq<Proto>, ghost rest: Bytes) returns (ok: bool)
      requires ProtosOk(ps)
      modifies this`data
      ensures ok ==> SavableAll(ps) && data + rest == old(data) + EncProtos(ps, rest)
      ensures !ok ==> !SavableAll(ps) || |old(data)| + |EncProtos(ps, rest)| > room + |rest|
      decreases ps, 1
    {
      hide EncProto, ProtoOk;
      var i := 0;
      while i < |ps|
        invariant 0 <= i <= |ps| && ProtosOk(ps[i..]) && (SavableAll(ps[i..]) <==> SavableAll(ps))
        invariant data + EncProtos(ps[i..], rest) == old(data) + EncProtos(ps, rest)
      {
        assert ps[i..][1..] == ps[i + 1..] && ps[i..][0] == ps[i];
        ok := Save(ps[i], EncProtos(ps[i + 1..], rest));
        if !ok {
          return;
        }
        i := i + 1;
      }
      ok := true;
    }

    // --- reading

    method SafeRead(n: nat) returns (ok: bool, b: Bytes)
      requires Valid()
      modifies this`pos
      ensures Valid() && Reads(DecBytes(old(Left()), n), ok, b, Left())
    {
      if |data| - pos < n {
        return false, [];
      }
      ghost var left := Left();
      b := data[pos..pos + n];
      pos := pos + n;
      assert left[..n] == b && left[n..] == Left();
      ok := true;
    }

    method ReadUnsigned(k: nat) returns (ok: bool, n: nat)
      requires Valid()
      modifies this`pos
      ensures Valid() && Reads(DecU(old(Left()), k), ok, n, Left())
    {
      hide FromLE;
      var b;
      ok, b := SafeRead(k);
      n := if ok then FromLE(b) else 0;
    }

    method ReadInt64() returns (ok: bool, i: int)
      requires Valid()
      modifies this`pos
      ensures Valid() && Reads(DecInt64(old(Left())), ok, i, Left())
    {
      hide FromLE, Signed;
      var b;
      ok, b := SafeRead(8);
      i := if ok then Signed(FromLE(b), 8) else 0;
    }

    method ReadCount() returns (ok: bool, n: nat)
      requires Valid()
      modifies this`pos
      ensures Valid() && Reads(DecCount(old(Left())), ok, n, Left())
    {
      hide DecInt64;
      var i;
      ok, i := ReadInt64();
      ok := ok && i >= 0;
      n := if ok then i else 0;
    }

    method CheckTag(t: nat) returns (ok: bool)
      requires Valid()
      modifies this`pos
      ensures Valid() && Reads(DecTag(old(Left()), t), ok, (), Left())
    {
      hide DecU;
      var u;
      ok, u := ReadUnsigned(4);
      ok := ok && u == t;
    }

    method ReadObject() returns (ok: bool, o: Obj)
      requires Valid()
      modifies this`pos
      ensures Valid() && Reads(DecObj(old(Left())), ok, o, Left())
    {
      hide DecU, DecInt64, DecCount, DecBytes;
      o := Null;
      var t;
      ok, t := ReadUnsigned(4);
      if !ok {
        return;
      }
      if t == 0x0800_0010 {
        var len;
        ok, len := ReadCount();
        if ok {
          var s;
          ok, s := SafeRead(len);
          o := Str(s);
        }
      } else if t == 0x0500_0002 {
        var i;
        ok, i := ReadInt64();
        o := Int(i);
      } else if t == 0x0100_0008 {
        var i;
        ok, i := ReadInt64();
        o := Bool(i);
      } else if t == 0x0500_0004 {
        var bits;
        ok, bits := ReadUnsigned(4);
        o := Float(bits);
      } else {
        ok := t == 0x0100_0001;
      }
    }

    method ReadObjects(n: nat) returns (ok: bool, xs: seq<Obj>)
      requires Valid()
      modifies this`pos
      ensures Valid() && Reads(DecObjs(old(Left()), n, []), ok, xs, Left())
    {
      hide DecObj;
      xs := [];
      ghost var b := Left();
      var i := 0;
      while i < n
        invariant 0 <= i <= n && Valid() && DecObjs(Left(), n - i, xs) == DecObjs(b, n, [])
      {
        var x;
        ok, x := ReadObject();
        if !ok {
          return;
        }
        xs := xs + [x];
        i := i + 1;
      }
      ok := true;
    }

    method ReadOuter() returns (ok: bool, v: OuterVar)
      requires Valid()
      modifies this`pos
      ensures Valid() && Reads(DecOuter(old(Left())), ok, v, Left())
    {
      hide DecU, DecObj;
      v := OuterVar(0, 0, Null, Null);
      var kind, src, name;
      ok, kind := ReadUnsigned(8);
      if ok {
        ok, src := ReadObject();
        if ok {
          ok, name := ReadObject();
          v := OuterVar(kind % Pow256(4), 0, src, name);
        }
      }
    }

    method ReadOuters(n: nat) returns (ok: bool, xs: seq<OuterVar>)
      requires Valid()
      modifies this`pos
      ensures Valid() && Reads(DecOuters(old(Left()), n, []), ok, xs, Left())
    {
      hide DecOuter;
      xs := [];
      ghost var b := Left();
      var i := 0;
      while i < n
        invariant 0 <= i <= n && Valid() && DecOuters(Left(), n - i, xs) == DecOuters(b, n, [])
      {
        var x;
        ok, x := ReadOuter();
        if !ok {
          return;
        }
        xs := xs + [x];
        i := i + 1;
      }
      ok := true;
    }

    method ReadLocal() returns (ok: bool, v: LocalVarInfo)
      requires Valid()
      modifies this`pos
      ensures Valid() && Reads(DecLocal(old(Left())), ok, v, Left())
    {
      hide DecU, DecObj;
      v := LocalVarInfo(Null, 0, 0, 0);
      var name, at, startOp, endOp;
      ok, name := ReadObject();
      if ok {
        ok, at := ReadUnsigned(8);
        if ok {
          ok, startOp := ReadUnsigned(8);
          if ok {
            ok, endOp := ReadUnsigned(8);
            v := LocalVarInfo(name, at, startOp, endOp);
          }
        }
      }
    }

    method ReadLocals(n: nat) returns (ok: bool, xs: seq<LocalVarInfo>)
      requires Valid()
      modifies this`pos
      ensures Valid() && Reads(DecLocals(old(Left()), n, []), ok, xs, Left())
    {
      hide DecLocal;
      xs := [];
      ghost var b := Left();
      var i := 0;
      while i < n
        invariant 0 <= i <= n && Valid() && DecLocals(Left(), n - i, xs) == DecLocals(b, n, [])
      {
        var x;
        ok, x := ReadLocal();
        if !ok {
          return;
        }
        xs := xs + [x];
        i := i + 1;
      }
      ok := true;
    }

    method ReadCounts() returns (ok: bool, n: Counts)
      requires Valid()
      modifies this`pos
      ensures Valid() && Reads(DecCounts(old(Left())), ok, n, Left())
    {
      hide DecCount;
      n := Counts(0, 0, 0, 0, 0, 0, 0, 0);
      var literals, parameters, outers, locals, lines, defaults, code, functions;
      ok, literals := ReadCount();
      if !ok {
        return;
      }
      ok, parameters := ReadCount();
      if !ok {
        return;
      }
      ok, outers := ReadCount();
      if !ok {
        return;
      }
      ok, locals := ReadCount();
      if !ok {
        return;
      }
      ok, lines := ReadCount();
      if !ok {
        return;
      }
      ok, defaults := ReadCount();
      if !ok {
        return;
      }
      ok, code := ReadCount();
      if !ok {
        return;
      }
      ok, functions := ReadCount();
      n := Counts(literals, parameters, outers, locals, lines, defaults, code, functions);
    }

    method LoadHeader() returns (ok: bool, p: Proto, n: Counts)
      requires Valid()
      modifies this`pos
      ensures Valid() && Reads(DecHeader(old(Left())), ok, (p, n), Left())
    {
      hide DecTag, DecObj, DecCounts;
      p, n := BLANK, Counts(0, 0, 0, 0, 0, 0, 0, 0);
      var sourcename, name;
      ok := CheckTag(PART);
      if !ok {
        return;
      }
      ok, sourcename := ReadObject();
      if !ok {
        return;
      }
      ok, name := ReadObject();
      if !ok {
        return;
      }
      p := BLANK.(sourcename := sourcename, name := name);
      ok := CheckTag(PART);
      if ok {
        ok, n := ReadCounts();
      }
    }

    method LoadLists(p: Proto, n: Counts) returns (ok: bool, q: Proto)
      requires Valid()
      modifies this`pos
      ensures Valid() && Reads(DecLists(old(Left()), p, n), ok, q, Left())
    {
      hide DecTag, DecObjs, DecOuters, DecLocals;
      q := p;
      var literals, parameters, outers, locals;
      ok := CheckTag(PART);
      if !ok {
        return;
      }
      ok, literals := ReadObjects(n.literals);
      if !ok {
        return;
      }
      ok := CheckTag(PART);
      if !ok {
        return;
      }
      ok, parameters := ReadObjects(n.parameters);
      if !ok {
        return;
      }
      ok := CheckTag(PART);
      if !ok {
        return;
      }
      ok, outers := ReadOuters(n.outers);
      if !ok {
        return;
      }
      ok := CheckTag(PART);
      if !ok {
        return;
      }
      ok, locals := ReadLocals(n.locals);
      q := p.(literals := literals, parameters := parameters, outers := outers, locals := locals);
    }

    method LoadBlocks(p: Proto, n: Counts) returns (ok: bool, q: Proto)
      requires Valid()
      modifies this`pos
      ensures Valid() && Reads(DecBlocks(old(Left()), p, n), ok, q, Left())
    {
      hide DecTag, DecBytes, Lines, Ints, Code;
      q := p;
      var lines, defaults, code;
      ok := CheckTag(PART);
      if !ok {
        return;
      }
      ok, lines := SafeRead(16 * n.lines);
      if !ok {
        return;
      }
      ok := CheckTag(PART);
      if !ok {
        return;
      }
      ok, defaults := SafeRead(8 * n.defaults);
      if !ok {
        return;
      }
      ok := CheckTag(PART);
      if !ok {
        return;
      }
      ok, code := SafeRead(8 * n.code);
      if !ok {
        return;
      }
      ok := CheckTag(PART);
      q := p.(lines := Lines(lines), defaults := Ints(defaults), code := Code(code));
    }

    method LoadEnd(p: Proto) returns (ok: bool, q: Proto)
      requires Valid()
      modifies this`pos
      ensures Valid() && Reads(DecEnd(old(Left()), p), ok, q, Left())
    {
      hide DecInt64, DecBytes;
      q := p;
      var stacksize, generator, varparams;
      ok, stacksize := ReadInt64();
      if !ok {
        return;
      }
      ok, generator := SafeRead(1);
      if !ok {
        return;
      }
      ok, varparams := ReadInt64();
      if ok {
        q := p.(stacksize := stacksize, generator := generator[0] != 0, varparams := varparams);
      }
    }

    method Load() returns (ok: bool, p: Proto)
      requires Valid()
      modifies this`pos
      ensures Valid() && Reads(DecProto(old(Left())), ok, p, Left())
      decreases |Left()|, 0
    {
      hide DecHeader, DecLists, DecBlocks, DecProtos, DecEnd;
      var n, functions;
      ok, p, n := LoadHeader();
      if !ok {
        return;
      }
      ok, p := LoadLists(p, n);
      if !ok {
        return;
      }
      ok, p := LoadBlocks(p, n);
      if !ok {
        return;
      }
      ok, functions := LoadFunctions(n.functions);
      if !ok {
        return;
      }
      ok, p := LoadEnd(p.(functions := functions));
    }

    method LoadFunctions(n: nat) returns (ok: bool, ps: seq<Proto>)
      requires Valid()
      modifies this`pos
      ensures Valid() && Reads(DecProtos(old(Left()), n, []), ok, ps, Left())
      decreases |Left()|, n + 1
    {
      hide DecProto;
      ps := [];
      ghost var b := Left();
      var i := 0;
      while i < n
        invariant 0 <= i <= n && Valid() && DecProtos(Left(), n - i, ps) == DecProtos(b, n, []) && |Left()| <= |b|
      {
        var p;
        ok, p := Load();
        if !ok {
          return;
        }
        ps := ps + [p];
        i := i + 1;
      }
      ok := true;
    }
  }

  /** What a reading method returns, by what the bytes to be read say. */
  predicate Reads<T(==)>(r: Dec<T>, ok: bool, v: T, left: Bytes) {
    if r.Got? then ok && v == r.v && left == r.rest else !ok
  }

  // --- closures

  /** LVClosure::Save: the prototype between a head, with the sizes of the basic types, and a tail. */
  method SaveClosure(s: LVStream, p: Proto) returns (ok: bool)
    requires s.Valid() && ProtoOk(p)
    modifies s`data
    ensures ok <==> Savable(p) && |old(s.data)| + |EncClosure(p, [])| <= s.room
    ensures ok ==> s.data == old(s.data) + EncClosure(p, [])
  {
    hide EncProto, Tag, ProtoOk;
    ghost var body := EncProto(p, Tag(TAIL) + []);
    ok := s.WriteTag(HEAD, Tag(1) + (Tag(8) + (Tag(4) + body)));
    if ok {
      ok := s.WriteTag(1, Tag(8) + (Tag(4) + body));
    }
    if ok {
      ok := s.WriteTag(8, Tag(4) + body);
    }
    if ok {
      ok := s.WriteTag(4, body);
    }
    if ok {
      ok := s.Save(p, Tag(TAIL) + []);
    }
    if ok {
      ok := s.WriteTag(TAIL, []);
    }
    assert s.data + [] == s.data;
  }

  function EncClosure(p: Proto, rest: Bytes): Bytes
    requires ProtoOk(p)
  {
    Tag(HEAD) + (Tag(1) + (Tag(8) + (Tag(4) + EncProto(p, Tag(TAIL) + rest))))
  }

  function DecClosure(b: Bytes): Dec<Proto> {
    var (_, b1) :- DecTag(b, HEAD);
    var (_, b2) :- DecTag(b1, 1);
    var (_, b3) :- DecTag(b2, 8);
    var (_, b4) :- DecTag(b3, 4);
    var (p, b5) :- DecProto(b4);
    var (_, b6) :- DecTag(b5, TAIL);
    Got(p, b6)
  }

  method LoadClosure(s: LVStream) returns (ok: bool, p: Proto)
    requires s.Valid()
    modifies s`pos
    ensures s.Valid() && Reads(DecClosure(old(s.Left())), ok, p, s.Left())
  {
    hide DecTag, DecProto;
    p := BLANK;
    ok := s.CheckTag(HEAD);
    if !ok {
      return;
    }
    ok := s.CheckTag(1);
    if !ok {
      return;
    }
    ok := s.CheckTag(8);
    if !ok {
      return;
    }
    ok := s.CheckTag(4);
    if !ok {
      return;
    }
    ok, p := s.Load();
    if !ok {
      return;
    }
    ok := s.CheckTag(TAIL);
  }

  lemma ClosureBack(p: Proto, rest: Bytes)
    requires ProtoOk(p) && Savable(p)
    ensures DecClosure(EncClosure(p, rest)) == Got(BareProto(p), rest)
  {
    hide EncProto, DecProto, Tag, DecTag, BareProto, ProtoOk, Savable;
    var body := EncProto(p, Tag(TAIL) + rest);
    TagBack(HEAD, Tag(1) + (Tag(8) + (Tag(4) + body)));
    TagBack(1, Tag(8) + (Tag(4) + body));
    TagBack(8, Tag(4) + body);
    TagBack(4, body);
    ProtoBack(p, Tag(TAIL) + rest);
    TagBack(TAIL, rest);
  }

  /** Write a closure behind whatever a stream holds, and read it from there. */
  method SaveAndLoad(s: LVStream, p: Proto) returns (ok: bool, q: Proto)
    requires s.Valid() && s.pos == |s.data| && ProtoOk(p)
    modifies s
    ensures ok <==> Savable(p) && |old(s.data)| + |EncClosure(p, [])| <= s.room
    ensures ok ==> s.Valid() && q == BareProto(p) && s.Left() == []
  {
    hide EncClosure, DecClosure, BareProto, ProtoOk;
    q := BLANK;
    ok := SaveClosure(s, p);
    if ok {
      assert s.Left() == EncClosure(p, []);
      ClosureBack(p, []);
      ok, q := LoadClosure(s);
      assert ok;
    }
  }
}
