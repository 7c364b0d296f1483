/** `LVTable`: a hash table that is a finite map after any sequence of operations, through removed keys left
    in their chains, relocated nodes and changes of size. */
module Table {
  import opened Bytecode
  import opened TableNodes

  const MINPOWER2 := 4

  predicate PowerOf2(n: int) {
    n == 1 || (n > 1 && n % 2 == 0 && PowerOf2(n / 2))
  }

  /** Every table has a power of two of nodes, and at least four. */
  predicate Size(n: int) {
    n >= MINPOWER2 && PowerOf2(n)
  }

  lemma Sizes(n: int)
    requires Size(n)
    ensures Size(2 * n) && (n > MINPOWER2 ==> Size(n / 2) && n >= 8)
  {
    assert (2 * n) / 2 == n;
    assert PowerOf2(n / 2);
    assert n / 2 == 1 || (n / 2 > 1 && (n / 2) % 2 == 0);
  }

  /** The size Rehash chooses for a table of `oldsize` nodes and `nelems` keys, or 0 to leave it alone. */
  function NewSize(oldsize: int, nelems: int, force: bool): int {
    if nelems >= oldsize - oldsize / 4 then oldsize * 2
    else if nelems <= oldsize / 4 && oldsize > MINPOWER2 then oldsize / 2
    else if force then oldsize
    else 0
  }

  /** Whatever size is chosen has room for the keys counted and one more, and a free node besides. */
  lemma RoomAfter(oldsize: int, nelems: int, force: bool)
    requires Size(oldsize) && 0 <= nelems <= oldsize
    ensures force ==> NewSize(oldsize, nelems, force) != 0
    ensures NewSize(oldsize, nelems, force) != 0 ==>
      Size(NewSize(oldsize, nelems, force)) && nelems + 1 < NewSize(oldsize, nelems, force)
  {
    Sizes(oldsize);
  }

  /** The free node that a new key takes: its own, or the one at the free pointer. */
  function Taken(t: seq<Node>, f: int, h: int): int
    requires 0 <= h < |t|
  {
    if t[h].key == Null then h else f
  }

  /** A node is still free after a key is put at `h`. */
  ghost predicate Roomy(t: seq<Node>, f: int, h: int)
    requires 0 <= h < |t|
  {
    (t[h].key == Null && h != f) || exists j :: 0 <= j < f && Free(t, j)
  }

  class LVTable {
    const hash: Val -> int
    var nodes: array<Node>
    var firstfree: int
    var usednodes: int
    ghost var comp: seq<int>
    ghost var pos: seq<int>

    ghost predicate Valid()
      reads this, nodes
    {
      && Size(nodes.Length) && Chained(nodes[..], hash, comp, pos)
      && Free(nodes[..], firstfree) && Unlinked(pos, firstfree)
      && usednodes == |Contents(nodes[..])|
    }

    ghost function Map(): map<Val, Val>
      reads this, nodes
      requires Valid()
    {
      Contents(nodes[..])
    }

    /** The smallest size that is large enough. */
    static method RoundUp(initialSize: int) returns (pow2size: int)
      ensures Size(pow2size) && pow2size >= initialSize && pow2size >= MINPOWER2
      ensures Size(initialSize) ==> pow2size == initialSize
    {
      pow2size := MINPOWER2;
      while initialSize > pow2size
        invariant Size(pow2size)
        invariant pow2size > MINPOWER2 ==> initialSize > pow2size / 2
        decreases initialSize - pow2size
      {
        Sizes(pow2size);
        pow2size := pow2size * 2;
      }
      Exact(pow2size, initialSize);
    }

    constructor (hash: Val -> int, initialSize: int)
      ensures Valid() && Map() == map[] && this.hash == hash && fresh(nodes)
      ensures Packed(nodes[..], firstfree) && nodes.Length >= initialSize && nodes.Length >= MINPOWER2
      ensures Size(initialSize) ==> nodes.Length == initialSize
    {
      hide Chained, Contents, Distinct, Unlinked, Packed, Size;
      var pow2size := RoundUp(initialSize);
      this.hash := hash;
      nodes := new Node[pow2size](_ => EMPTY);
      firstfree := pow2size - 1;
      usednodes := 0;
      comp := seq(pow2size, i => i);
      pos := seq(pow2size, _ => 0);
      new;
      EmptyTable(nodes[..], hash, comp, pos);
    }

    /** Replace the nodes by `size` empty ones. */
    method AllocNodes(size: int)
      requires Size(size)
      modifies this`nodes, this`firstfree, this`comp, this`pos
      ensures fresh(nodes) && nodes.Length == size
      ensures Chained(nodes[..], hash, comp, pos) && Free(nodes[..], firstfree) && Unlinked(pos, firstfree)
      ensures Packed(nodes[..], firstfree) && Contents(nodes[..]) == map[]
    {
      hide Chained, Contents, Distinct, Unlinked, Packed;
      nodes := new Node[size](_ => EMPTY);
      firstfree := size - 1;
      comp := seq(size, i => i);
      pos := seq(size, _ => 0);
      EmptyTable(nodes[..], hash, comp, pos);
    }

    /** The node that holds `key`. A null key matches any empty node on the way. */
    method FindNode(key: Val, h: int) returns (n: int)
      requires nodes.Length > 0 && Chained(nodes[..], hash, comp, pos) && h == Main(hash, key, nodes.Length)
      ensures NIL <= n < nodes.Length
      ensures n != NIL ==> nodes[n].key == key
      ensures key != Null ==> (n != NIL <==> key in Contents(nodes[..]))
    {
      n := h;
      while true
        invariant 0 <= n < nodes.Length && Passed(nodes[..], comp, pos, h, n, key)
        decreases After(nodes[..], comp, pos, n)
      {
        if nodes[n].key == key {
          if key != Null {
            ContentsHas(nodes[..], n);
          }
          return;
        }
        if nodes[n].next == NIL {
          if key != Null {
            PassedAll(nodes[..], hash, comp, pos, n, key);
          }
          return NIL;
        }
        PassNext(nodes[..], comp, pos, h, n, key);
        NextAfter(nodes[..], comp, pos, n);
        n := nodes[n].next;
      }
    }

    method Get(key: Val) returns (found: bool, val: Val)
      requires Valid()
      ensures found <==> key in Map()
      ensures found ==> val == Map()[key]
    {
      NullAbsent(nodes[..]);
      val := Null;
      if key == Null {
        return false, val;
      }
      var n := FindNode(key, Main(hash, key, nodes.Length));
      if n != NIL {
        ContentsHas(nodes[..], n);
        return true, nodes[n].val;
      }
      return false, val;
    }

    /** Overwrite the value of a key that is there. */
    method Set(key: Val, val: Val) returns (done: bool)
      requires Valid()
      modifies nodes
      ensures Valid() && Map() == if key in old(Map()) then old(Map())[key := val] else old(Map())
      ensures key != Null ==> (done <==> key in old(Map()))
    {
      var n := FindNode(key, Main(hash, key, nodes.Length));
      NullAbsent(nodes[..]);
      if n != NIL {
        SetValue(n, val);
        return true;
      }
      return false;
    }

    method SetValue(n: int, val: Val)
      requires Valid() && 0 <= n < nodes.Length
      modifies nodes
      ensures nodes[..] == old(nodes[..])[n := old(nodes[n]).(val := val)]
      ensures Valid() && Map() == if old(nodes[n].key) != Null then old(Map())[old(nodes[n].key) := val] else old(Map())
      ensures Packed(old(nodes[..]), firstfree) ==> Packed(nodes[..], firstfree)
    {
      hide Linked, Homed, Native, Distinct, Contents;
      ghost var t := nodes[..];
      ValueChained(t, hash, comp, pos, n, val);
      ContentsSet(t, n, val);
      if Live(t, n) {
        ContentsHas(t, n);
      }
      nodes[n] := nodes[n].(val := val);
      assert nodes[..] == t[n := t[n].(val := val)];
    }

    method Remove(key: Val)
      requires Valid() && key != Null
      modifies this, nodes
      ensures Valid() && Map() == old(Map()) - {key}
      ensures nodes == old(nodes) || fresh(nodes)
    {
      hide Linked, Homed, Native, Distinct, Contents;
      var n := FindNode(key, Main(hash, key, nodes.Length));
      CardBound(nodes[..]);
      if n != NIL {
        ghost var t := nodes[..];
        RemoveChained(t, hash, comp, pos, n);
        ContentsRemove(t, n);
        nodes[n] := Node(Null, Null, nodes[n].next);
        assert nodes[..] == t[n := Node(Null, Null, t[n].next)];
        usednodes := usednodes - 1;
        CardBound(nodes[..]);
        Rehash(false);
      }
    }

    /** Reinsert every key into a table of another size, unless the size is right. */
    method Rehash(force: bool)
      requires Size(nodes.Length) && Distinct(nodes[..]) && 0 <= usednodes <= |Contents(nodes[..])| <= usednodes + 1
      requires |Contents(nodes[..])| <= nodes.Length
      requires !force ==> Valid()
      modifies this, nodes
      ensures Valid() && Map() == old(Contents(nodes[..]))
      ensures nodes == old(nodes) || fresh(nodes)
      ensures force ==> fresh(nodes)
      decreases 1
    {
      var oldsize := nodes.Length;
      if oldsize < 4 {
        oldsize := 4;
      }
      var nold := nodes;
      ghost var t := nodes[..];
      var nelems := usednodes;
      RoomAfter(oldsize, nelems, force);
      var size := NewSize(oldsize, nelems, force);
      if size == 0 {
        return;
      }
      AllocNodes(size);
      usednodes := 0;
      Reinsert(nold);
    }

    method Reinsert(nold: array<Node>)
      requires Valid() && Packed(nodes[..], firstfree) && Map() == map[] && nold != nodes
      requires Distinct(nold[..]) && |Contents(nold[..])| < nodes.Length
      modifies this, nodes
      ensures Valid() && Map() == Contents(nold[..]) && nodes == old(nodes)
      decreases 1, 0
    {
      hide Linked, Homed, Native, Distinct, Contents;
      hide Main, Free, Unlinked, Packed;
      var i := 0;
      PrefixDistinct(nold[..], 0);
      SkipNull(nold[..], 0, 0);
      NothingYet(nold[..]);
      while i < nold.Length
        invariant 0 <= i <= nold.Length && nodes == old(nodes)
        invariant Distinct(nold[..i]) && Valid() && Packed(nodes[..], firstfree) && Map() == Contents(nold[..i])
      {
        PrefixStep(nold[..], i);
        assert nold[..][..i] == nold[..i] && nold[..][..i + 1] == nold[..i + 1];
        PrefixCard(nold[..], i + 1);
        if nold[i].key != Null {
          var added := NewSlot(nold[i].key, nold[i].val);
        }
        i := i + 1;
      }
      assert nold[..i] == nold[..];
    }

    /** There is a place for the key without changing the size. */
    ghost predicate Fits(key: Val)
      reads this, nodes
    {
      && Valid()
      && (key in Contents(nodes[..]) || (Packed(nodes[..], firstfree) && |Contents(nodes[..])| + 1 < nodes.Length))
    }

    /** A key that was not in the table is at `mp`: nothing else changed in the contents, and of the nodes that
        were free only one was taken. */
    twostate predicate Claimed(key: Val, h: int, mp: int)
      requires old(Valid()) && old(0 <= h < nodes.Length) && nodes == old(nodes)
      reads this, nodes
    {
      && 0 <= mp < nodes.Length && nodes[mp].key == key && Chained(nodes[..], hash, comp, pos)
      && Contents(nodes[..]) == old(Map())[key := nodes[mp].val]
      && (forall j :: 0 <= j <= firstfree && j < nodes.Length ==>
        pos[j] == 0 || (j == firstfree && nodes[j].key != Null))
      && (old(Packed(nodes[..], firstfree)) ==> Packed(nodes[..], firstfree))
      && (forall j :: 0 <= j <= firstfree ==>
        (Free(nodes[..], j) <==> old(Free(nodes[..], j)) && j != old(Taken(nodes[..], firstfree, h))))
    }

    /** The node for a key that is not in the table; a node lent to another chain is moved out of the way. */
    method Claim(key: Val, h: int) returns (mp: int)
      requires Valid() && key != Null && key !in Map() && h == Main(hash, key, nodes.Length)
      modifies nodes, this`comp, this`pos
      ensures Claimed(key, h, mp)
    {
      hide Chained, Contents, Distinct, Claimed, Free, Unlinked;
      mp := h;
      if nodes[mp].key == Null {
        ClaimHome(key, h);
        return;
      }
      var n := firstfree;
      var mph := Main(hash, nodes[mp].key, nodes.Length);
      if mp > n && mph != mp {
        ClaimBack(key, h, mph);
      } else {
        mp := ClaimFree(key, h);
      }
    }

    /** The main node is empty. */
    method ClaimHome(key: Val, h: int)
      requires Valid() && key != Null && key !in Map() && h == Main(hash, key, nodes.Length) && nodes[h].key == Null
      modifies nodes, this`comp, this`pos
      ensures Claimed(key, h, h)
    {
      hide Linked, Homed, Native, Distinct, Contents;
      ghost var t := nodes[..];
      LinkedShape(t, comp, pos);
      PlaceChained(t, hash, comp, pos, h, key);
      ContentsAdd(t, h, key, t[h].next);
      nodes[h] := nodes[h].(key := key);
      assert nodes[..] == t[h := t[h].(key := key)];
    }

    /** The main node is lent to a key of another chain, which goes to the free node. */
    method ClaimBack(key: Val, h: int, mph: int)
      requires Valid() && key != Null && key !in Map() && h == Main(hash, key, nodes.Length) && nodes[h].key != Null
      requires mph == Main(hash, nodes[h].key, nodes.Length) && mph != h > firstfree
      modifies nodes, this`comp, this`pos
      ensures Claimed(key, h, h)
    {
      hide Chained, Contents;
      PosLength();
      Relocate(h, mph, firstfree);
      PlaceEmpty(key, h);
    }

    lemma PosLength()
      requires Valid()
      ensures |pos| == nodes.Length && Distinct(nodes[..])
    {
      hide Homed, Native, Contents;
    }

    /** A key put at its empty main node. */
    method PlaceEmpty(key: Val, h: int)
      requires 0 <= h < nodes.Length && nodes[h] == EMPTY && key != Null && h == Main(hash, key, nodes.Length)
      requires Chained(nodes[..], hash, comp, pos) && key !in Contents(nodes[..])
      modifies nodes
      ensures Chained(nodes[..], hash, comp, pos) && nodes[h].key == key
      ensures Contents(nodes[..]) == old(Contents(nodes[..]))[key := nodes[h].val]
      ensures forall j :: 0 <= j < nodes.Length && j != h ==> nodes[j] == old(nodes[j])
    {
      hide Linked, Homed, Native, Distinct, Contents;
      ghost var u := nodes[..];
      ContentsAdd(u, h, key, NIL);
      PlaceChained(u, hash, comp, pos, h, key);
      nodes[h] := nodes[h].(key := key);
      assert nodes[..] == u[h := u[h].(key := key)] == u[h := Node(key, u[h].val, NIL)];
    }

    /** The key goes to the free node, behind its main node. */
    method ClaimFree(key: Val, h: int) returns (mp: int)
      requires Valid() && key != Null && key !in Map() && h == Main(hash, key, nodes.Length) && nodes[h].key != Null
      requires !(h > firstfree && Main(hash, nodes[h].key, nodes.Length) != h)
      modifies nodes, this`comp, this`pos
      ensures Claimed(key, h, mp)
    {
      hide Linked, Homed, Native, Distinct, Contents, Joined;
      ghost var t := nodes[..];
      LinkedShape(t, comp, pos);
      var n := firstfree;
      Home(t, hash, comp, pos, h, n);
      JoinChained(t, hash, comp, pos, h, n, key);
      comp, pos := comp[n := comp[h]], InsertPos(comp, pos, h, n);
      nodes[n] := nodes[n].(next := nodes[h].next);
      nodes[h] := nodes[h].(next := n);
      nodes[n] := nodes[n].(key := key);
      assert nodes[..] == Joined(t, h, n, key);
      mp := n;
    }

    /** Find the predecessor of `mp` in its key's chain, and put the free node `n` in its place. */
    method Relocate(mp: int, mph: int, n: int)
      requires Valid() && 0 <= mp < nodes.Length && nodes[mp].key != Null && n == firstfree
      requires mph == Main(hash, nodes[mp].key, nodes.Length) && mph != mp
      modifies nodes, this`comp, this`pos
      ensures Chained(nodes[..], hash, comp, pos) && Contents(nodes[..]) == old(Map()) && nodes[mp] == EMPTY
      ensures nodes[n].key != Null && mp != n
      ensures forall j :: 0 <= j < nodes.Length && j != mp && j != n ==>
        pos[j] == old(pos[j]) && nodes[j].key == old(nodes[j].key)
      ensures pos[mp] == 0
      ensures forall j :: 0 <= j < nodes.Length && j != mp && j != n ==>
        (Free(nodes[..], j) <==> old(Free(nodes[..], j)))
      ensures old(Packed(nodes[..], firstfree)) ==> forall j :: 0 <= j < nodes.Length && nodes[j].key == Null ==>
        nodes[j].next == NIL
    {
      hide Linked, Homed, Native, Distinct, Contents, Moved, Swap, Main;
      ghost var t := nodes[..];
      LinkedShape(t, comp, pos);
      var othern := Previous(mp, mph);
      MoveChained(t, hash, comp, pos, othern, mp, n);
      comp, pos := Swap(comp, mp, n), Swap(pos, mp, n);
      nodes[othern] := nodes[othern].(next := n);
      nodes[n] := nodes[mp];
      nodes[mp] := EMPTY;
      assert nodes[..] == Moved(t, othern, mp, n);
    }

    /** The node linked to `mp`, searched from the main position of its key. */
    method Previous(mp: int, mph: int) returns (othern: int)
      requires Size(nodes.Length) && Chained(nodes[..], hash, comp, pos) && 0 <= mp < nodes.Length
        && nodes[mp].key != Null
      requires mph == Main(hash, nodes[mp].key, nodes.Length) && mph != mp
      ensures 0 <= othern < nodes.Length && nodes[othern].next == mp
    {
      hide Linked, Native, Distinct, Homed, Main;
      ghost var t := nodes[..];
      othern := mph;
      LinkedShape(t, comp, pos);
      Foreign(t, hash, comp, pos, mp);
      while nodes[othern].next != mp
        invariant 0 <= othern < nodes.Length && comp[othern] == comp[mp] && pos[othern] < pos[mp]
        decreases pos[mp] - pos[othern]
      {
        Predecessor(t, hash, comp, pos, mp, othern);
        othern := nodes[othern].next;
      }
    }

    /** Move the free pointer down to a node that is free; false if there is none. */
    method CorrectFree() returns (ok: bool)
      requires 0 <= firstfree < nodes.Length && |pos| == nodes.Length
      requires forall j :: 0 <= j <= firstfree && j < nodes.Length ==>
        pos[j] == 0 || (j == firstfree && nodes[j].key != Null)
      modifies this`firstfree
      ensures ok ==> Free(nodes[..], firstfree) && Unlinked(pos, firstfree)
      ensures ok <==> exists j :: 0 <= j <= old(firstfree) && Free(nodes[..], j)
      ensures old(Packed(nodes[..], firstfree)) ==> Packed(nodes[..], firstfree)
      ensures !ok && old(Packed(nodes[..], firstfree)) ==> forall j :: 0 <= j < nodes.Length ==> nodes[j].key != Null
      ensures 0 <= firstfree <= old(firstfree)
    {
      while true
        invariant 0 <= firstfree <= old(firstfree)
        invariant forall j :: 0 <= j <= firstfree && j < nodes.Length ==>
          pos[j] == 0 || (j == firstfree && nodes[j].key != Null)
        invariant old(Packed(nodes[..], firstfree)) ==> Packed(nodes[..], firstfree)
        invariant forall j :: firstfree < j <= old(firstfree) ==> !Free(nodes[..], j)
        decreases firstfree
      {
        if nodes[firstfree].key == Null && nodes[firstfree].next == NIL {
          return true;
        } else if firstfree == 0 {
          return false;
        }
        firstfree := firstfree - 1;
      }
    }

    /** Insert a key or overwrite its value. When no free node is left the table is rehashed, with the key
        already in it, and the second attempt finds it: so the recursion ends, and the result is false. It is true
        exactly for a new key that leaves a node free. */
    method NewSlot(key: Val, val: Val) returns (added: bool)
      requires Valid() && key != Null
      modifies this, nodes
      ensures Valid() && Map() == old(Map())[key := val]
      ensures added <==>
        key !in old(Map()) && old(Roomy(nodes[..], firstfree, Main(hash, key, nodes.Length)))
      ensures nodes == old(nodes) || fresh(nodes)
      ensures added ==> nodes == old(nodes)
      ensures old(Fits(key)) ==> nodes == old(nodes) && (added || key in old(Map()))
      ensures old(Packed(nodes[..], firstfree)) && nodes == old(nodes) ==> Packed(nodes[..], firstfree)
      decreases if Fits(key) then 0 else 2
    {
      hide Linked, Homed, Native, Distinct, Contents;
      var h := Main(hash, key, nodes.Length);
      var n := FindNode(key, h);
      if n != NIL {
        SetValue(n, val);
        return false;
      }
      var ok := AddKey(key, val, h);
      if ok {
        return true;
      }
      Rehash(true);
      added := NewSlot(key, val);
    }

    /** Claim a node and store the value, unless no free node is left after that. */
    method AddKey(key: Val, val: Val, h: int) returns (ok: bool)
      requires Valid() && key != Null && key !in Map() && h == Main(hash, key, nodes.Length)
      modifies nodes, this`comp, this`pos, this`firstfree, this`usednodes
      ensures ok ==> Valid() && Map() == old(Map())[key := val]
      ensures old(Packed(nodes[..], firstfree)) ==> Packed(nodes[..], firstfree)
      ensures ok <==> old(Roomy(nodes[..], firstfree, h))
      ensures !ok ==> Distinct(nodes[..]) && usednodes == old(usednodes) && |Contents(nodes[..])| <= nodes.Length
      ensures !ok ==> key in Contents(nodes[..]) && Contents(nodes[..])[key := val] == old(Map())[key := val]
      ensures !ok ==> |Contents(nodes[..])| == |old(Map())| + 1 && !old(Fits(key))
    {
      hide Linked, Homed, Native, Distinct, Contents;
      var mp := Claim(key, h);
      CardBound(nodes[..]);
      LinkedShape(nodes[..], comp, pos);
      ok := CorrectFree();
      if ok {
        StoreValue(mp, val);
      } else if old(Packed(nodes[..], firstfree)) {
        FullCard(nodes[..], nodes.Length);
        assert nodes[..][..nodes.Length] == nodes[..];
      }
    }

    method StoreValue(mp: int, val: Val)
      requires 0 <= mp < nodes.Length && nodes[mp].key != Null && Size(nodes.Length)
        && Chained(nodes[..], hash, comp, pos)
      requires Free(nodes[..], firstfree) && Unlinked(pos, firstfree) && usednodes + 1 == |Contents(nodes[..])|
      modifies nodes, this`usednodes
      ensures Valid() && Map() == old(Contents(nodes[..]))[nodes[mp].key := val] && nodes[mp].key == old(nodes[mp].key)
      ensures old(Packed(nodes[..], firstfree)) ==> Packed(nodes[..], firstfree)
    {
      hide Linked, Homed, Native, Distinct, Contents;
      ghost var t := nodes[..];
      ValueChained(t, hash, comp, pos, mp, val);
      ContentsSet(t, mp, val);
      ContentsHas(t, mp);
      nodes[mp] := nodes[mp].(val := val);
      assert nodes[..] == t[mp := t[mp].(val := val)];
      usednodes := usednodes + 1;
    }

    method CountUsed() returns (n: int)
      requires Valid()
      ensures n == |Map()|
    {
      n := usednodes;
    }

    method ClearNodes()
      requires nodes.Length >= 0
      modifies nodes
      ensures forall i :: 0 <= i < nodes.Length ==> nodes[i].key == Null && nodes[i].val == Null
    {
      var i := 0;
      while i < nodes.Length
        invariant 0 <= i <= nodes.Length
        invariant forall j :: 0 <= j < i ==> nodes[j].key == Null && nodes[j].val == Null
      {
        nodes[i] := nodes[i].(key := Null, val := Null);
        i := i + 1;
      }
    }

    method Clear()
      requires Valid()
      modifies this, nodes
      ensures Valid() && Map() == map[] && usednodes == 0
      ensures nodes == old(nodes) || fresh(nodes)
    {
      hide Linked, Homed, Native, Contents;
      ClearNodes();
      usednodes := 0;
      NoneLive(nodes[..]);
      Rehash(true);
    }

    /** The first key at or after index `refpos`, and the index to continue from; -1 at the end. */
    method Next(refpos: int) returns (idx: int, outkey: Val, outval: Val)
      requires Valid() && 0 <= refpos
      ensures idx == -1 || refpos < idx <= nodes.Length
      ensures idx == -1 ==> forall j :: refpos <= j < nodes.Length ==> nodes[j].key == Null
      ensures idx != -1 ==> (forall j :: refpos <= j < idx - 1 ==> nodes[j].key == Null) && nodes[idx - 1].key != Null
      ensures idx != -1 ==> outkey == nodes[idx - 1].key && outval == nodes[idx - 1].val
    {
      hide Chained, Contents, Distinct;
      outkey, outval := Null, Null;
      idx := refpos;
      while idx < nodes.Length
        invariant refpos <= idx && (idx <= nodes.Length || idx == refpos)
        invariant forall j :: refpos <= j < idx && j < nodes.Length ==> nodes[j].key == Null
        decreases nodes.Length - idx
      {
        if nodes[idx].key != Null {
          outkey, outval := nodes[idx].key, nodes[idx].val;
          return idx + 1, outkey, outval;
        }
        idx := idx + 1;
      }
      return -1, outkey, outval;
    }

    /** Iterating with Next meets every key once: inserting what it yields gives an equal table. */
    method Clone() returns (nt: LVTable)
      requires Valid()
      ensures fresh(nt) && fresh(nt.nodes) && nt.Valid() && nt.Map() == Map() && nt.hash == hash
    {
      hide Linked, Homed, Native, Distinct, Contents, Free, Unlinked, Packed;
      nt := new LVTable(hash, nodes.Length);
      CardRoom(nodes[..], firstfree);
      var ridx, key, val := Next(0);
      ghost var done := 0;
      PrefixDistinct(nodes[..], 0);
      NothingYet(nodes[..]);
      done := if ridx == -1 then nodes.Length else ridx - 1;
      SkipNull(nodes[..], 0, done);
      while ridx != -1
        invariant fresh(nt) && fresh(nt.nodes) && nt.Valid() && nt.nodes.Length == nodes.Length
          && Packed(nt.nodes[..], nt.firstfree) && nt.hash == hash
        invariant 0 <= done <= nodes.Length && Distinct(nodes[..done]) && nt.Map() == Contents(nodes[..done])
        invariant ridx == -1 ==> done == nodes.Length
        invariant ridx != -1 ==>
          ridx == done + 1 && done < nodes.Length && key == nodes[done].key != Null && val == nodes[done].val
        decreases nodes.Length - done
      {
        PrefixStep(nodes[..], done);
        assert nodes[..][..done] == nodes[..done] && nodes[..][..done + 1] == nodes[..done + 1];
        PrefixCard(nodes[..], done + 1);
        var added := nt.NewSlot(key, val);
        done := ridx;
        ridx, key, val := Next(ridx);
        ghost var next := if ridx == -1 then nodes.Length else ridx - 1;
        SkipNull(nodes[..], done, next);
        done := next;
      }
      assert nodes[..done] == nodes[..];
    }
  }

  lemma EmptyTable(t: seq<Node>, hash: Val -> int, comp: seq<int>, pos: seq<int>)
    requires |comp| == |t| && |pos| == |t| > 0 && forall i :: 0 <= i < |t| ==>
      t[i] == EMPTY && comp[i] == i && pos[i] == 0
    ensures Chained(t, hash, comp, pos) && Free(t, |t| - 1) && Unlinked(pos, |t| - 1) && Packed(t, |t| - 1)
      && Contents(t) == map[]
  {
  }

  lemma NoneLive(t: seq<Node>)
    requires forall i :: 0 <= i < |t| ==> t[i].key == Null
    ensures Distinct(t) && Contents(t) == map[]
  {
  }

  lemma NothingYet(t: seq<Node>)
    requires Distinct(t)
    ensures Distinct(t[..0]) && Contents(t[..0]) == map[]
  {
  }

  /** A key away from its main position comes after it in its chain. */
  lemma Foreign(t: seq<Node>, hash: Val -> int, comp: seq<int>, pos: seq<int>, mp: int)
    requires Chained(t, hash, comp, pos) && Live(t, mp)
    ensures var m := Main(hash, t[mp].key, |t|);
      comp[m] == comp[mp] && pos[m] <= pos[mp] && (m != mp ==> pos[m] < pos[mp])
  {
  }

  lemma Exact(pow2size: int, initialSize: int)
    requires Size(pow2size) && (pow2size > MINPOWER2 ==> initialSize > pow2size / 2) && initialSize <= pow2size
    ensures Size(initialSize) ==> pow2size == initialSize
  {
    if Size(initialSize) && pow2size > MINPOWER2 {
      Between(pow2size, initialSize);
    }
  }

  /** No power of two lies strictly between another and its half. */
  lemma {:induction false} Between(a: int, b: int)
    requires PowerOf2(a) && PowerOf2(b) && a / 2 < b <= a
    ensures a == b
    decreases a
  {
    if b > 1 && a > 1 {
      Between(a / 2, b / 2);
    }
  }

  /** A node that belongs below the free pointer, or whose key belongs there, holds a key of its own chain. */
  lemma Home(t: seq<Node>, hash: Val -> int, comp: seq<int>, pos: seq<int>, mp: int, n: int)
    requires Chained(t, hash, comp, pos) && Live(t, mp) && Free(t, n) && Unlinked(pos, n)
      && (mp <= n || Main(hash, t[mp].key, |t|) == mp)
    ensures Main(hash, t[mp].key, |t|) == mp && mp != n && pos[n] == 0
  {
  }

  lemma {:induction false} CardPrefix(t: seq<Node>, i: nat)
    requires Distinct(t) && i <= |t|
    ensures Distinct(t[..i]) && |Contents(t[..i])| <= i
  {
    hide Contents, Distinct;
    if i == 0 {
      EmptyPrefix(t);
    } else {
      CardPrefix(t, i - 1);
      PrefixStep(t, i - 1);
    }
  }

  lemma EmptyPrefix(t: seq<Node>)
    ensures Distinct(t[..0]) && Contents(t[..0]) == map[]
  {
  }

  lemma CardBound(t: seq<Node>)
    requires Distinct(t)
    ensures |Contents(t)| <= |t|
  {
    CardPrefix(t, |t|);
    assert t[..|t|] == t;
  }

  /** A free node leaves room for one key more. */
  lemma CardRoom(t: seq<Node>, f: int)
    requires Distinct(t) && Free(t, f)
    ensures |Contents(t)| < |t|
  {
    CardTail(t, f, |t|);
    assert t[..|t|] == t;
  }

  lemma {:induction false} CardTail(t: seq<Node>, f: int, i: nat)
    requires Distinct(t) && Free(t, f) && f < i <= |t|
    ensures Distinct(t[..i]) && |Contents(t[..i])| < i
  {
    hide Contents, Distinct;
    PrefixStep(t, i - 1);
    if i == f + 1 {
      CardPrefix(t, f);
    } else {
      CardTail(t, f, i - 1);
    }
  }

  lemma {:induction false} SkipNull(t: seq<Node>, i: nat, j: nat)
    requires Distinct(t) && i <= j <= |t| && forall k :: i <= k < j ==> t[k].key == Null
    ensures Distinct(t[..i]) && Distinct(t[..j]) && Contents(t[..i]) == Contents(t[..j])
    decreases j - i
  {
    PrefixDistinct(t, i);
    if i < j {
      PrefixStep(t, j - 1);
      SkipNull(t, i, j - 1);
    }
  }

  // --- whole runs

  datatype Request = Put(k: Val, v: Val) | Assign(k: Val, v: Val) | Delete(k: Val) | ClearAll

  /** What a request does to a finite map. Null is never a key: callers check before they insert or remove. */
  function Perform(m: map<Val, Val>, r: Request): map<Val, Val> {
    match r
    case Put(k, v) => if k == Null then m else m[k := v]
    case Assign(k, v) => if k in m then m[k := v] else m
    case Delete(k) => m - {k}
    case ClearAll => map[]
  }

  function PerformAll(m: map<Val, Val>, rs: seq<Request>): map<Val, Val> {
    if rs == [] then m else Perform(PerformAll(m, rs[..|rs| - 1]), rs[|rs| - 1])
  }

  lemma NoNullKey(t: LVTable)
    requires t.Valid()
    ensures Null !in t.Map()
  {
    NullAbsent(t.nodes[..]);
  }

  method Handle(t: LVTable, r: Request)
    requires t.Valid()
    modifies t, t.nodes
    ensures t.Valid() && t.Map() == Perform(old(t.Map()), r) && (t.nodes == old(t.nodes) || fresh(t.nodes))
  {
    hide Chained, Contents, Distinct, Free, Unlinked;
    match r {
      case Put(key, v) =>
        if key != Null {
          var added := t.NewSlot(key, v);
        }
      case Assign(key, v) => var done := t.Set(key, v);
      case Delete(key) =>
        var present, value := t.Get(key);
        if present {
          NoNullKey(t);
          t.Remove(key);
        } else {
          assert t.Map() - {key} == t.Map();
        }
      case ClearAll => t.Clear();
    }
  }

  /** After any requests, a lookup finds exactly what a finite map would hold, and the count is its size. */
  method Run(hash: Val -> int, initialSize: int, rs: seq<Request>, k: Val) returns (found: bool, val: Val, used: int)
    ensures var m := PerformAll(map[], rs); (found <==> k in m) && (found ==> val == m[k]) && used == |m|
  {
    hide Chained, Contents, Distinct, Free, Unlinked, Packed, Perform;
    var t := new LVTable(hash, initialSize);
    var i := 0;
    while i < |rs|
      invariant 0 <= i <= |rs| && fresh(t) && fresh(t.nodes) && t.Valid()
      invariant t.Map() == PerformAll(map[], rs[..i])
    {
      assert rs[..i + 1][..i] == rs[..i];
      Handle(t, rs[i]);
      i := i + 1;
    }
    assert rs[..i] == rs;
    found, val := t.Get(k);
    used := t.CountUsed();
  }

  /** The fourth key of a fresh table of four nodes is reported as not new, wherever the keys belong. */
  method FillFour(hash: Val -> int, a: Val, b: Val, c: Val, d: Val) returns (third: bool, fourth: bool, found: bool)
    requires Null !in [a, b, c, d] && a != b && b != c && a != c && d !in [a, b, c]
    ensures third && !fourth && found
  {
    hide *;
    var t := new LVTable(hash, 4);
    FourIsSize();
    NothingIn(map[]);
    var added := PutFitting(t, a, map[]);
    OneIn(a);
    added := PutFitting(t, b, map[a := a]);
    TwoIn(a, b);
    third := PutFitting(t, c, map[a := a, b := b]);
    fourth := PutLast(t, a, b, c, d);
    var val;
    found, val := t.Get(d);
  }

  lemma FourIsSize()
    ensures Size(4) && MINPOWER2 <= 4
  {
  }

  lemma NothingIn(m: map<Val, Val>)
    requires m == map[]
    ensures |m| == 0
  {
  }

  lemma OneIn(a: Val)
    ensures |map[a := a]| == 1 && map[][a := a] == map[a := a]
  {
    assert map[a := a].Keys == {a};
    MapCard(map[a := a]);
  }

  lemma TwoIn(a: Val, b: Val)
    requires a != b
    ensures |map[a := a, b := b]| == 2 && map[a := a][b := b] == map[a := a, b := b]
  {
    assert map[a := a, b := b].Keys == {a, b};
    MapCard(map[a := a, b := b]);
  }

  method PutFitting(t: LVTable, key: Val, ghost m: map<Val, Val>) returns (added: bool)
    requires t.Valid() && t.Map() == m && key != Null && key !in m && |m| + 1 < t.nodes.Length
      && Packed(t.nodes[..], t.firstfree)
    modifies t, t.nodes
    ensures t.Valid() && t.Map() == m[key := key] && t.nodes == old(t.nodes) && added
      && Packed(t.nodes[..], t.firstfree)
  {
    hide Chained, Contents, Distinct, Unlinked, Packed, Roomy, Free;
    added := t.NewSlot(key, key);
  }

  method PutLast(t: LVTable, a: Val, b: Val, c: Val, d: Val) returns (added: bool)
    requires t.Valid() && t.nodes.Length == 4 && Null !in [a, b, c, d] && a != b && b != c && a != c && d !in [a, b, c]
    requires t.Map() == map[a := a, b := b, c := c]
    modifies t, t.nodes
    ensures t.Valid() && !added && d in t.Map()
  {
    hide Chained, Contents, Distinct, Unlinked, Packed, Roomy;
    added := t.NewSlot(d, d);
    if added {
      FourKeys(t.Map(), a, b, c, d);
      KeysOnce(t);
      CardRoom(t.nodes[..], t.firstfree);
      assert false;
    }
  }

  lemma KeysOnce(t: LVTable)
    requires t.Valid()
    ensures Distinct(t.nodes[..])
  {
  }

  lemma FourKeys(m: map<Val, Val>, a: Val, b: Val, c: Val, d: Val)
    requires a != b && b != c && a != c && d !in [a, b, c] && m == map[a := a, b := b, c := c, d := d]
    ensures |m| == 4
  {
    assert m.Keys == {a, b, c, d};
    MapCard(m);
  }
}
