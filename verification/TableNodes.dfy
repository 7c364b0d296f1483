/** The node array of `LVTable`: a chained scatter table whose chains run through the array itself. Every
    node belongs to one chain, at one position; a removed key leaves its node in its chain. */
module TableNodes {
  import opened Bytecode

  datatype Node = Node(key: Val, val: Val, next: int)

  const NIL := -1
  const EMPTY := Node(Null, Null, NIL)

  /** hash & (n - 1), for a power of two. */
  function Main(hash: Val -> int, k: Val, n: int): (m: int)
    requires n > 0
    ensures 0 <= m < n
  {
    hash(k) % n
  }

  predicate Live(t: seq<Node>, i: int) {
    0 <= i < |t| && t[i].key != Null
  }

  /** `comp` names the chain of each node and `pos` its position there: links lead to the next position,
      chains do not fork, join or loop, and only first nodes have no link to them. */
  ghost predicate Linked(t: seq<Node>, comp: seq<int>, pos: seq<int>) {
    Shaped(t, comp, pos) && Steps(t, comp, pos) && Ends(t, comp, pos) && Unique(comp, pos) && Preceded(t, pos)
  }

  predicate Shaped(t: seq<Node>, comp: seq<int>, pos: seq<int>) {
    && |comp| == |t| && |pos| == |t|
    && forall i :: 0 <= i < |t| ==> NIL <= t[i].next < |t| && pos[i] >= 0
  }

  predicate Steps(t: seq<Node>, comp: seq<int>, pos: seq<int>)
    requires Shaped(t, comp, pos)
  {
    forall i :: 0 <= i < |t| && t[i].next != NIL ==> comp[t[i].next] == comp[i] && pos[t[i].next] == pos[i] + 1
  }

  predicate Ends(t: seq<Node>, comp: seq<int>, pos: seq<int>)
    requires Shaped(t, comp, pos)
  {
    forall i, j :: 0 <= i < |t| && 0 <= j < |t| && t[i].next == NIL && comp[i] == comp[j] ==> pos[j] <= pos[i]
  }

  predicate Unique(comp: seq<int>, pos: seq<int>)
    requires |comp| == |pos|
  {
    forall i, j :: 0 <= i < |comp| && 0 <= j < |comp| && comp[i] == comp[j] && pos[i] == pos[j] ==> i == j
  }

  ghost predicate Preceded(t: seq<Node>, pos: seq<int>)
    requires |pos| == |t|
  {
    forall j :: 0 <= j < |t| && pos[j] > 0 ==> Linker(t, j)
  }

  ghost predicate Linker(t: seq<Node>, j: int) {
    exists i :: 0 <= i < |t| && t[i].next == j
  }

  /** Every key is in the chain of its main position, not before it. */
  ghost predicate Homed(t: seq<Node>, hash: Val -> int, comp: seq<int>, pos: seq<int>)
    requires |comp| == |t| && |pos| == |t|
  {
    forall j :: Live(t, j) ==> comp[Main(hash, t[j].key, |t|)] == comp[j] && pos[Main(hash, t[j].key, |t|)] <= pos[j]
  }

  ghost predicate Distinct(t: seq<Node>) {
    forall i, j :: Live(t, i) && Live(t, j) && t[i].key == t[j].key ==> i == j
  }

  /** A node lent to another chain's key is the main position of no key. */
  ghost predicate Native(t: seq<Node>, hash: Val -> int) {
    forall i, j :: Live(t, i) && Live(t, j) && Main(hash, t[i].key, |t|) != i ==> Main(hash, t[j].key, |t|) != i
  }

  ghost predicate Chained(t: seq<Node>, hash: Val -> int, comp: seq<int>, pos: seq<int>) {
    Linked(t, comp, pos) && Homed(t, hash, comp, pos) && Distinct(t) && Native(t, hash)
  }

  /** No link leads at or below the free pointer. */
  ghost predicate Unlinked(pos: seq<int>, f: int) {
    forall j :: 0 <= j <= f && j < |pos| ==> pos[j] == 0
  }

  predicate Free(t: seq<Node>, f: int) {
    0 <= f < |t| && t[f].key == Null && t[f].next == NIL
  }

  /** No removed key, and every node above the free pointer in use. */
  ghost predicate Packed(t: seq<Node>, f: int) {
    && (forall i :: f < i < |t| && i >= 0 ==> t[i].key != Null)
    && (forall i :: 0 <= i < |t| && t[i].key == Null ==> t[i].next == NIL)
  }

  // --- contents

  ghost function Contents(t: seq<Node>): (m: map<Val, Val>)
    requires Distinct(t)
  {
    map i | 0 <= i < |t| && Live(t, i) :: t[i].key := t[i].val
  }

  lemma ContentsHas(t: seq<Node>, i: int)
    requires Distinct(t) && Live(t, i)
    ensures t[i].key in Contents(t) && Contents(t)[t[i].key] == t[i].val
  {
  }

  lemma ContentsIn(t: seq<Node>, k: Val) returns (i: int)
    requires Distinct(t) && k in Contents(t)
    ensures Live(t, i) && t[i].key == k && Contents(t)[k] == t[i].val
  {
    i :| Live(t, i) && t[i].key == k;
  }

  lemma NullAbsent(t: seq<Node>)
    requires Distinct(t)
    ensures Null !in Contents(t)
  {
  }

  /** Tables with the same live nodes, in any order, hold the same. */
  lemma SameContents(t: seq<Node>, u: seq<Node>)
    requires Distinct(t) && Distinct(u)
    requires forall i :: Live(t, i) ==> exists j :: Live(u, j) && u[j].key == t[i].key && u[j].val == t[i].val
    requires forall j :: Live(u, j) ==> exists i :: Live(t, i) && t[i].key == u[j].key && t[i].val == u[j].val
    ensures Contents(t) == Contents(u)
  {
    forall k | k in Contents(t) ensures k in Contents(u) && Contents(u)[k] == Contents(t)[k] {
      var i := ContentsIn(t, k);
      var j :| Live(u, j) && u[j].key == t[i].key && u[j].val == t[i].val;
      ContentsHas(u, j);
    }
    forall k | k in Contents(u) ensures k in Contents(t) {
      var j := ContentsIn(u, k);
      var i :| Live(t, i) && t[i].key == u[j].key && t[i].val == u[j].val;
      ContentsHas(t, i);
    }
  }

  /** The value of a live node is overwritten. */
  lemma ContentsSet(t: seq<Node>, n: int, v: Val)
    requires Distinct(t) && 0 <= n < |t|
    ensures Distinct(t[n := t[n].(val := v)])
    ensures Contents(t[n := t[n].(val := v)]) == if t[n].key != Null then Contents(t)[t[n].key := v] else Contents(t)
  {
    var u := t[n := t[n].(val := v)];
    forall i | 0 <= i < |t| ensures u[i].key == t[i].key && (Live(u, i) <==> Live(t, i)) {
    }
    var m := if t[n].key != Null then Contents(t)[t[n].key := v] else Contents(t);
    forall k | k in Contents(u) ensures k in m && m[k] == Contents(u)[k] {
      var i := ContentsIn(u, k);
      ContentsHas(t, i);
    }
    forall k | k in m ensures k in Contents(u) {
      if t[n].key != Null && k == t[n].key {
        ContentsHas(u, n);
      } else {
        var i := ContentsIn(t, k);
        ContentsHas(u, i);
      }
    }
  }

  /** A new key in a node that held none. */
  lemma ContentsAdd(t: seq<Node>, n: int, k: Val, next: int)
    requires Distinct(t) && 0 <= n < |t| && t[n].key == Null && k != Null && k !in Contents(t)
    ensures var u := t[n := Node(k, t[n].val, next)]; Distinct(u) && Contents(u) == Contents(t)[k := t[n].val]
  {
    var u := t[n := Node(k, t[n].val, next)];
    forall i, j | Live(u, i) && Live(u, j) && u[i].key == u[j].key ensures i == j {
      if i != n {
        ContentsHas(t, i);
      }
      if j != n {
        ContentsHas(t, j);
      }
    }
    forall x | x in Contents(u) ensures x in Contents(t)[k := t[n].val]
      && Contents(t)[k := t[n].val][x] == Contents(u)[x] {
      var i := ContentsIn(u, x);
      if i != n {
        ContentsHas(t, i);
      }
    }
    forall x | x in Contents(t)[k := t[n].val] ensures x in Contents(u) {
      if x == k {
        ContentsHas(u, n);
      } else {
        var i := ContentsIn(t, x);
        assert Live(u, i);
        ContentsHas(u, i);
      }
    }
  }

  /** A removed key. */
  lemma ContentsRemove(t: seq<Node>, n: int)
    requires Distinct(t) && Live(t, n)
    ensures var u := t[n := Node(Null, Null, t[n].next)];
      Distinct(u) && Contents(u) == Contents(t) - {t[n].key} && |Contents(u)| == |Contents(t)| - 1
  {
    var u := t[n := Node(Null, Null, t[n].next)];
    forall i | Live(u, i) ensures Live(t, i) && i != n && u[i] == t[i] {
    }
    var m := Contents(t) - {t[n].key};
    forall x | x in Contents(u) ensures x in m && m[x] == Contents(u)[x] {
      var i := ContentsIn(u, x);
      ContentsHas(t, i);
    }
    forall x | x in m ensures x in Contents(u) {
      var i := ContentsIn(t, x);
      assert Live(u, i);
      ContentsHas(u, i);
    }
    ContentsHas(t, n);
    assert Contents(t).Keys == m.Keys + {t[n].key};
  }

  // --- counting

  lemma {:induction false} Subset(a: set<Val>, b: set<Val>)
    requires a <= b
    ensures |a| <= |b|
  {
    if a != {} {
      var x :| x in a;
      Subset(a - {x}, b - {x});
    }
  }

  lemma MapCard(m: map<Val, Val>)
    ensures |m| == |m.Keys|
  {
  }

  /** Part of a table holds no more than all of it. */
  lemma PrefixCard(t: seq<Node>, i: nat)
    requires Distinct(t) && i <= |t|
    ensures Distinct(t[..i]) && |Contents(t[..i])| <= |Contents(t)|
    ensures forall k :: k in Contents(t[..i]) ==> k in Contents(t)
  {
    PrefixDistinct(t, i);
    forall k | k in Contents(t[..i]) ensures k in Contents(t) {
      var j := ContentsIn(t[..i], k);
      assert Live(t, j);
      ContentsHas(t, j);
    }
    assert Contents(t[..i]).Keys <= Contents(t).Keys;
    Subset(Contents(t[..i]).Keys, Contents(t).Keys);
  }

  lemma PrefixDistinct(t: seq<Node>, i: nat)
    requires Distinct(t) && i <= |t|
    ensures Distinct(t[..i])
  {
    forall a, b | Live(t[..i], a) && Live(t[..i], b) && t[..i][a].key == t[..i][b].key ensures a == b {
      assert Live(t, a) && Live(t, b);
    }
  }

  lemma PrefixStep(t: seq<Node>, i: nat)
    requires Distinct(t) && i < |t|
    ensures Distinct(t[..i]) && Distinct(t[..i + 1])
    ensures t[i].key == Null ==> Contents(t[..i + 1]) == Contents(t[..i])
    ensures t[i].key != Null ==>
      t[i].key !in Contents(t[..i]) && Contents(t[..i + 1]) == Contents(t[..i])[t[i].key := t[i].val]
  {
    PrefixDistinct(t, i);
    PrefixDistinct(t, i + 1);
    var a, b := t[..i], t[..i + 1];
    assert b[i] == t[i];
    forall j | 0 <= j < i ensures a[j] == b[j] == t[j] && (Live(a, j) <==> Live(b, j)) {
    }
    if t[i].key == Null {
      SameContents(a, b);
    } else {
      if t[i].key in Contents(a) {
        var j := ContentsIn(a, t[i].key);
        assert Live(t, j) && Live(t, i);
        assert false;
      }
      var m := Contents(a)[t[i].key := t[i].val];
      forall k | k in Contents(b) ensures k in m && m[k] == Contents(b)[k] {
        var j := ContentsIn(b, k);
        if j < i {
          ContentsHas(a, j);
        }
      }
      forall k | k in m ensures k in Contents(b) {
        if k == t[i].key {
          ContentsHas(b, i);
        } else {
          var j := ContentsIn(a, k);
          ContentsHas(b, j);
        }
      }
    }
  }

  /** A table with every node in use holds as many keys as it has nodes. */
  lemma {:induction false} FullCard(t: seq<Node>, i: nat)
    requires Distinct(t) && i <= |t| && forall j :: 0 <= j < |t| ==> t[j].key != Null
    ensures Distinct(t[..i]) && |Contents(t[..i])| == i
  {
    if i == 0 {
      assert Contents(t[..0]) == map[];
    } else {
      FullCard(t, i - 1);
      PrefixStep(t, i - 1);
    }
  }

  // --- finding a key

  /** The rest of a chain after node `i`. */
  ghost function After(t: seq<Node>, comp: seq<int>, pos: seq<int>, i: int): set<int>
    requires |comp| == |t| && |pos| == |t| && 0 <= i < |t|
  {
    set j | 0 <= j < |t| && comp[j] == comp[i] && pos[j] > pos[i]
  }

  lemma NextAfter(t: seq<Node>, comp: seq<int>, pos: seq<int>, i: int)
    requires Linked(t, comp, pos) && 0 <= i < |t| && t[i].next != NIL
    ensures After(t, comp, pos, t[i].next) < After(t, comp, pos, i)
  {
    assert t[i].next in After(t, comp, pos, i) && t[i].next !in After(t, comp, pos, t[i].next);
  }

  /** A chain was walked from `m` to node `i` without meeting `k`. */
  ghost predicate Passed(t: seq<Node>, comp: seq<int>, pos: seq<int>, m: int, i: int, k: Val)
    requires |comp| == |t| && |pos| == |t| && 0 <= m < |t| && 0 <= i < |t|
  {
    && comp[i] == comp[m] && pos[m] <= pos[i]
    && forall j :: 0 <= j < |t| && comp[j] == comp[m] && pos[m] <= pos[j] < pos[i] ==> t[j].key != k
  }

  lemma PassNext(t: seq<Node>, comp: seq<int>, pos: seq<int>, m: int, i: int, k: Val)
    requires Linked(t, comp, pos) && 0 <= m < |t| && 0 <= i < |t| && Passed(t, comp, pos, m, i, k) && t[i].key != k
      && t[i].next != NIL
    ensures Passed(t, comp, pos, m, t[i].next, k)
  {
    forall j | 0 <= j < |t| && comp[j] == comp[m] && pos[m] <= pos[j] < pos[t[i].next] ensures t[j].key != k {
      if pos[j] == pos[i] {
        assert j == i;
      }
    }
  }

  /** At the end of its main position's chain, a key that was not met is in no node. */
  lemma PassedAll(t: seq<Node>, hash: Val -> int, comp: seq<int>, pos: seq<int>, i: int, k: Val)
    requires Chained(t, hash, comp, pos) && k != Null && 0 <= i < |t|
    requires Passed(t, comp, pos, Main(hash, k, |t|), i, k) && t[i].key != k && t[i].next == NIL
    ensures k !in Contents(t)
  {
    if k in Contents(t) {
      var j := ContentsIn(t, k);
      assert false;
    }
  }

  // --- what keeps the chains

  lemma Alone(t: seq<Node>, comp: seq<int>, pos: seq<int>, f: int)
    requires Linked(t, comp, pos) && Free(t, f) && pos[f] == 0
    ensures forall j :: 0 <= j < |t| && comp[j] == comp[f] ==> j == f
  {
    forall j | 0 <= j < |t| && comp[j] == comp[f] ensures j == f {
      assert pos[j] <= pos[f];
    }
  }

  /** A free node is the main position of no key. */
  lemma FreeHome(t: seq<Node>, hash: Val -> int, comp: seq<int>, pos: seq<int>, f: int)
    requires Chained(t, hash, comp, pos) && Free(t, f) && pos[f] == 0
    ensures forall j :: Live(t, j) ==> Main(hash, t[j].key, |t|) != f
  {
    Alone(t, comp, pos, f);
  }

  /** Links alone make the chains. */
  lemma SameLinks(t: seq<Node>, u: seq<Node>, comp: seq<int>, pos: seq<int>)
    requires Linked(t, comp, pos) && |u| == |t| && forall i :: 0 <= i < |t| ==> u[i].next == t[i].next
    ensures Linked(u, comp, pos)
  {
    forall j | 0 <= j < |u| && pos[j] > 0 ensures Linker(u, j) {
      assert Linker(t, j);
      var i :| 0 <= i < |t| && t[i].next == j;
      assert u[i].next == j;
    }
  }

  /** Removing keys keeps the rest where it belongs. */
  lemma FewerKeys(t: seq<Node>, u: seq<Node>, hash: Val -> int, comp: seq<int>, pos: seq<int>)
    requires |comp| == |t| && |pos| == |t| == |u| && Homed(t, hash, comp, pos) && Distinct(t) && Native(t, hash)
    requires forall j :: Live(u, j) ==> Live(t, j) && u[j].key == t[j].key
    ensures Homed(u, hash, comp, pos) && Distinct(u) && Native(u, hash)
  {
  }

  /** A key at its own main position. */
  lemma PlaceChained(t: seq<Node>, hash: Val -> int, comp: seq<int>, pos: seq<int>, m: int, k: Val)
    requires Chained(t, hash, comp, pos) && 0 <= m < |t| && t[m].key == Null && k != Null && k !in Contents(t)
      && Main(hash, k, |t|) == m
    ensures Chained(t[m := t[m].(key := k)], hash, comp, pos)
  {
    hide Linked, Contents;
    var u := t[m := t[m].(key := k)];
    assert u == t[m := Node(k, t[m].val, t[m].next)];
    ContentsAdd(t, m, k, t[m].next);
    SameLinks(t, u, comp, pos);
    forall j | Live(u, j) ensures j == m || (Live(t, j) && u[j].key == t[j].key) {
    }
  }

  function InsertPos(comp: seq<int>, pos: seq<int>, mp: int, n: int): (p: seq<int>)
    requires |comp| == |pos| && 0 <= mp < |comp| && 0 <= n < |comp|
    ensures |p| == |pos|
    ensures forall j :: 0 <= j < |pos| ==>
      p[j] == if j == n then pos[mp] + 1 else if comp[j] == comp[mp] && pos[j] > pos[mp] then pos[j] + 1 else pos[j]
  {
    seq(|pos|, j requires 0 <= j < |pos| => if j == n then pos[mp] + 1 else if comp[j] == comp[mp]
      && pos[j] > pos[mp] then pos[j] + 1 else pos[j])
  }

  /** The free node `n` takes key `k` and joins the chain right after `mp`. */
  function Joined(t: seq<Node>, mp: int, n: int, k: Val): (u: seq<Node>)
    requires 0 <= mp < |t| && 0 <= n < |t| && mp != n
    ensures |u| == |t| && u[n] == Node(k, t[n].val, t[mp].next) && u[mp] == t[mp].(next := n)
    ensures forall i :: 0 <= i < |t| && i != n && i != mp ==> u[i] == t[i]
  {
    t[n := Node(k, t[n].val, t[mp].next)][mp := t[mp].(next := n)]
  }

  ghost predicate Spare(t: seq<Node>, comp: seq<int>, pos: seq<int>, n: int)
    requires |comp| == |t| && |pos| == |t|
  {
    Free(t, n) && pos[n] == 0 && forall j :: 0 <= j < |t| && comp[j] == comp[n] ==> j == n
  }

  lemma JoinLinked(t: seq<Node>, comp: seq<int>, pos: seq<int>, mp: int, n: int, k: Val)
    requires Linked(t, comp, pos) && Free(t, n) && pos[n] == 0 && 0 <= mp < |t| && mp != n
    ensures Linked(Joined(t, mp, n, k), comp[n := comp[mp]], InsertPos(comp, pos, mp, n))
  {
    hide Steps, Ends, Unique, Preceded, Joined, InsertPos;
    Alone(t, comp, pos, n);
    JoinSteps(t, comp, pos, mp, n, k);
    JoinEnds(t, comp, pos, mp, n, k);
    JoinUnique(t, comp, pos, mp, n);
    JoinPreceded(t, comp, pos, mp, n, k);
  }

  lemma JoinSteps(t: seq<Node>, comp: seq<int>, pos: seq<int>, mp: int, n: int, k: Val)
    requires Shaped(t, comp, pos) && Steps(t, comp, pos) && Unique(comp, pos) && Spare(t, comp, pos, n)
      && 0 <= mp < |t| && mp != n
    ensures Shaped(Joined(t, mp, n, k), comp[n := comp[mp]], InsertPos(comp, pos, mp, n))
    ensures Steps(Joined(t, mp, n, k), comp[n := comp[mp]], InsertPos(comp, pos, mp, n))
  {
    hide Joined, InsertPos;
    var u := Joined(t, mp, n, k);
    var c, p := comp[n := comp[mp]], InsertPos(comp, pos, mp, n);
    assert comp[mp] != comp[n];
    forall i | 0 <= i < |u| && u[i].next != NIL ensures c[u[i].next] == c[i] && p[u[i].next] == p[i] + 1 {
      if i == n {
        assert u[i].next == t[mp].next != n;
      } else if i != mp {
        assert u[i].next == t[i].next != n;
        assert pos[i] != pos[mp] || comp[i] != comp[mp];
      }
    }
  }

  lemma JoinEnds(t: seq<Node>, comp: seq<int>, pos: seq<int>, mp: int, n: int, k: Val)
    requires Shaped(t, comp, pos) && Ends(t, comp, pos) && Unique(comp, pos) && Spare(t, comp, pos, n) && 0 <= mp < |t|
      && mp != n
    requires Shaped(Joined(t, mp, n, k), comp[n := comp[mp]], InsertPos(comp, pos, mp, n))
    ensures Ends(Joined(t, mp, n, k), comp[n := comp[mp]], InsertPos(comp, pos, mp, n))
  {
    hide Joined, InsertPos;
    var u := Joined(t, mp, n, k);
    var c, p := comp[n := comp[mp]], InsertPos(comp, pos, mp, n);
    assert comp[mp] != comp[n];
    forall i, j | 0 <= i < |u| && 0 <= j < |u| && u[i].next == NIL && c[i] == c[j] ensures p[j] <= p[i] {
      var i' := if i == n then mp else i;
      var j' := if j == n then mp else j;
      assert t[i'].next == NIL && comp[i'] == comp[j'];
      assert i' == mp || comp[i'] != comp[mp] || pos[i'] > pos[mp];
    }
  }

  lemma JoinUnique(t: seq<Node>, comp: seq<int>, pos: seq<int>, mp: int, n: int)
    requires |comp| == |pos| == |t| && Unique(comp, pos) && Spare(t, comp, pos, n) && 0 <= mp < |t| && mp != n
    ensures Unique(comp[n := comp[mp]], InsertPos(comp, pos, mp, n))
  {
    hide InsertPos;
    assert comp[mp] != comp[n];
  }

  lemma JoinPreceded(t: seq<Node>, comp: seq<int>, pos: seq<int>, mp: int, n: int, k: Val)
    requires Shaped(t, comp, pos) && Preceded(t, pos) && Free(t, n) && 0 <= mp < |t| && mp != n
    ensures Preceded(Joined(t, mp, n, k), InsertPos(comp, pos, mp, n))
  {
    hide Joined, InsertPos;
    var u := Joined(t, mp, n, k);
    forall j | 0 <= j < |u| && InsertPos(comp, pos, mp, n)[j] > 0 ensures Linker(u, j) {
      if j == n {
        assert u[mp].next == n;
      } else {
        assert Linker(t, j);
        var i :| 0 <= i < |t| && t[i].next == j;
        assert u[if i == mp then n else i].next == j;
      }
    }
  }

  /** A key that finds its main position taken by a key that belongs there. */
  lemma JoinChained(t: seq<Node>, hash: Val -> int, comp: seq<int>, pos: seq<int>, mp: int, n: int, k: Val)
    requires Chained(t, hash, comp, pos) && Free(t, n) && pos[n] == 0 && k != Null && k !in Contents(t)
    requires 0 <= mp < |t| && mp == Main(hash, k, |t|) && t[mp].key != Null && Main(hash, t[mp].key, |t|) == mp
    ensures Chained(Joined(t, mp, n, k), hash, comp[n := comp[mp]], InsertPos(comp, pos, mp, n))
    ensures Contents(Joined(t, mp, n, k)) == Contents(t)[k := t[n].val]
  {
    hide Linked, Contents, Homed, Native, Joined, InsertPos;
    LinkedShape(t, comp, pos);
    JoinLinked(t, comp, pos, mp, n, k);
    Alone(t, comp, pos, n);
    FreeHome(t, hash, comp, pos, n);
    var v := t[n := Node(k, t[n].val, t[mp].next)];
    ContentsAdd(t, n, k, t[mp].next);
    SameKeys(v, Joined(t, mp, n, k));
    JoinHomed(t, hash, comp, pos, mp, n, k);
    JoinNative(t, hash, mp, n, k);
  }

  lemma LinkedShape(t: seq<Node>, comp: seq<int>, pos: seq<int>)
    requires Linked(t, comp, pos)
    ensures Shaped(t, comp, pos)
  {
  }

  lemma JoinHomed(t: seq<Node>, hash: Val -> int, comp: seq<int>, pos: seq<int>, mp: int, n: int, k: Val)
    requires Shaped(t, comp, pos) && Homed(t, hash, comp, pos) && Spare(t, comp, pos, n) && 0 <= mp < |t| && mp != n
      && k != Null
    requires mp == Main(hash, k, |t|) && forall j :: Live(t, j) ==> Main(hash, t[j].key, |t|) != n
    ensures Homed(Joined(t, mp, n, k), hash, comp[n := comp[mp]], InsertPos(comp, pos, mp, n))
  {
    hide Joined, InsertPos, Main;
    var u := Joined(t, mp, n, k);
    var c, p := comp[n := comp[mp]], InsertPos(comp, pos, mp, n);
    forall j | Live(u, j) ensures c[Main(hash, u[j].key, |u|)] == c[j] && p[Main(hash, u[j].key, |u|)] <= p[j] {
      if j != n {
        assert Live(t, j) && u[j].key == t[j].key;
      }
    }
  }

  lemma JoinNative(t: seq<Node>, hash: Val -> int, mp: int, n: int, k: Val)
    requires Native(t, hash) && Free(t, n) && 0 <= mp < |t| && mp != n && k != Null && t[mp].key != Null
    requires mp == Main(hash, k, |t|) == Main(hash, t[mp].key, |t|) && forall j :: Live(t, j) ==>
      Main(hash, t[j].key, |t|) != n
    ensures Native(Joined(t, mp, n, k), hash)
  {
    hide Joined, Main;
    var u := Joined(t, mp, n, k);
    forall i, j | Live(u, i) && Live(u, j) && Main(hash, u[i].key, |u|) != i ensures Main(hash, u[j].key, |u|) != i {
      if i != n {
        assert Live(t, i) && u[i].key == t[i].key;
      }
      if j != n {
        assert Live(t, j) && u[j].key == t[j].key;
      }
    }
  }

  /** Only links differ. */
  lemma SameKeys(t: seq<Node>, u: seq<Node>)
    requires Distinct(t) && |t| == |u| && forall i :: 0 <= i < |t| ==> u[i].key == t[i].key && u[i].val == t[i].val
    ensures Distinct(u) && Contents(u) == Contents(t)
  {
    forall i | 0 <= i < |t| ensures Live(u, i) <==> Live(t, i) {
    }
    assert Distinct(u);
    forall i | Live(t, i) ensures exists j :: Live(u, j) && u[j].key == t[i].key && u[j].val == t[i].val {
      assert Live(u, i);
    }
    forall i | Live(u, i) ensures exists j :: Live(t, j) && t[j].key == u[i].key && t[j].val == u[i].val {
      assert Live(t, i);
    }
    SameContents(t, u);
  }

  /** The node `mp`, lent to another chain, moves to the free node `n`, which takes its place there. */
  function Moved(t: seq<Node>, prev: int, mp: int, n: int): (u: seq<Node>)
    requires 0 <= prev < |t| && 0 <= mp < |t| && 0 <= n < |t| && mp != n && prev != mp && prev != n
    ensures |u| == |t| && u[prev] == t[prev].(next := n) && u[n] == t[mp] && u[mp] == EMPTY
    ensures forall i :: 0 <= i < |t| && i != n && i != mp && i != prev ==> u[i] == t[i]
  {
    t[prev := t[prev].(next := n)][n := t[mp]][mp := EMPTY]
  }

  function Swap(s: seq<int>, a: int, b: int): (r: seq<int>)
    requires 0 <= a < |s| && 0 <= b < |s|
    ensures |r| == |s| && r[a] == s[b] && r[b] == s[a] && forall i :: 0 <= i < |s| && i != a && i != b ==> r[i] == s[i]
  {
    s[a := s[b]][b := s[a]]
  }

  /** Where the contents of node `i` were before the move. */
  function Before(i: int, mp: int, n: int): int {
    if i == n then mp else if i == mp then n else i
  }

  ghost predicate Movable(t: seq<Node>, comp: seq<int>, pos: seq<int>, prev: int, mp: int, n: int) {
    && Shaped(t, comp, pos) && Spare(t, comp, pos, n)
    && 0 <= mp < |t| && mp != n && 0 <= prev < |t| && t[prev].next == mp && prev != mp && prev != n
    && forall i :: 0 <= i < |t| && t[i].next == mp ==> i == prev
  }

  lemma CanMove(t: seq<Node>, comp: seq<int>, pos: seq<int>, prev: int, mp: int, n: int)
    requires Linked(t, comp, pos) && Free(t, n) && pos[n] == 0 && 0 <= mp < |t| && mp != n && 0 <= prev < |t|
      && t[prev].next == mp
    ensures Movable(t, comp, pos, prev, mp, n)
  {
    Alone(t, comp, pos, n);
  }

  lemma MoveLinked(t: seq<Node>, comp: seq<int>, pos: seq<int>, prev: int, mp: int, n: int)
    requires Linked(t, comp, pos) && Movable(t, comp, pos, prev, mp, n)
    ensures Linked(Moved(t, prev, mp, n), Swap(comp, mp, n), Swap(pos, mp, n))
  {
    hide Steps, Ends, Unique, Preceded, Moved, Swap;
    MoveSteps(t, comp, pos, prev, mp, n);
    MoveEnds(t, comp, pos, prev, mp, n);
    MoveUnique(comp, pos, mp, n);
    MovePreceded(t, comp, pos, prev, mp, n);
  }

  lemma MoveSteps(t: seq<Node>, comp: seq<int>, pos: seq<int>, prev: int, mp: int, n: int)
    requires Movable(t, comp, pos, prev, mp, n) && Steps(t, comp, pos)
    ensures Shaped(Moved(t, prev, mp, n), Swap(comp, mp, n), Swap(pos, mp, n))
    ensures Steps(Moved(t, prev, mp, n), Swap(comp, mp, n), Swap(pos, mp, n))
  {
    hide Moved, Swap;
    var u := Moved(t, prev, mp, n);
    var c, p := Swap(comp, mp, n), Swap(pos, mp, n);
    forall i | 0 <= i < |u| && u[i].next != NIL ensures c[u[i].next] == c[i] && p[u[i].next] == p[i] + 1 {
      var i' := Before(i, mp, n);
      assert comp[t[i'].next] == comp[i'] && pos[t[i'].next] == pos[i'] + 1;
      assert t[i'].next != n;
    }
  }

  lemma MoveEnds(t: seq<Node>, comp: seq<int>, pos: seq<int>, prev: int, mp: int, n: int)
    requires Movable(t, comp, pos, prev, mp, n) && Ends(t, comp, pos)
    requires Shaped(Moved(t, prev, mp, n), Swap(comp, mp, n), Swap(pos, mp, n))
    ensures Ends(Moved(t, prev, mp, n), Swap(comp, mp, n), Swap(pos, mp, n))
  {
    hide Moved, Swap;
    var u := Moved(t, prev, mp, n);
    var c, p := Swap(comp, mp, n), Swap(pos, mp, n);
    forall i, j | 0 <= i < |u| && 0 <= j < |u| && u[i].next == NIL && c[i] == c[j] ensures p[j] <= p[i] {
      var i', j' := Before(i, mp, n), Before(j, mp, n);
      assert comp[i'] == comp[j'] && t[i'].next == NIL;
    }
  }

  lemma MoveUnique(comp: seq<int>, pos: seq<int>, mp: int, n: int)
    requires |comp| == |pos| && Unique(comp, pos) && 0 <= mp < |comp| && 0 <= n < |comp|
    ensures Unique(Swap(comp, mp, n), Swap(pos, mp, n))
  {
    hide Swap;
    var c, p := Swap(comp, mp, n), Swap(pos, mp, n);
    forall i, j | 0 <= i < |c| && 0 <= j < |c| && c[i] == c[j] && p[i] == p[j] ensures i == j {
      var i', j' := Before(i, mp, n), Before(j, mp, n);
      assert comp[i'] == comp[j'] && pos[i'] == pos[j'];
    }
  }

  lemma MovePreceded(t: seq<Node>, comp: seq<int>, pos: seq<int>, prev: int, mp: int, n: int)
    requires Movable(t, comp, pos, prev, mp, n) && Preceded(t, pos)
    ensures Preceded(Moved(t, prev, mp, n), Swap(pos, mp, n))
  {
    hide Moved, Swap;
    var u := Moved(t, prev, mp, n);
    forall j | 0 <= j < |u| && Swap(pos, mp, n)[j] > 0 ensures Linker(u, j) {
      if j == n {
        assert u[prev].next == n;
      } else {
        assert j != mp;
        assert Linker(t, j);
        var i :| 0 <= i < |t| && t[i].next == j;
        assert u[Before(i, mp, n)].next == j;
      }
    }
  }

  lemma MoveChained(t: seq<Node>, hash: Val -> int, comp: seq<int>, pos: seq<int>, prev: int, mp: int, n: int)
    requires Chained(t, hash, comp, pos) && Free(t, n) && pos[n] == 0 && Live(t, mp) && 0 <= prev < |t|
      && t[prev].next == mp
    requires Main(hash, t[mp].key, |t|) != mp
    ensures Movable(t, comp, pos, prev, mp, n)
    ensures Chained(Moved(t, prev, mp, n), hash, Swap(comp, mp, n), Swap(pos, mp, n))
    ensures Contents(Moved(t, prev, mp, n)) == Contents(t)
  {
    hide Linked, Contents, Homed, Native, Moved, Swap, Main, Distinct;
    LinkedShape(t, comp, pos);
    CanMove(t, comp, pos, prev, mp, n);
    MoveLinked(t, comp, pos, prev, mp, n);
    FreeHome(t, hash, comp, pos, n);
    MoveHomed(t, hash, comp, pos, prev, mp, n);
    MoveNative(t, hash, prev, mp, n);
    MoveContents(t, prev, mp, n);
  }

  lemma MoveHomed(t: seq<Node>, hash: Val -> int, comp: seq<int>, pos: seq<int>, prev: int, mp: int, n: int)
    requires Movable(t, comp, pos, prev, mp, n) && Homed(t, hash, comp, pos) && Native(t, hash) && Live(t, mp)
      && Main(hash, t[mp].key, |t|) != mp
    requires forall j :: Live(t, j) ==> Main(hash, t[j].key, |t|) != n
    ensures Homed(Moved(t, prev, mp, n), hash, Swap(comp, mp, n), Swap(pos, mp, n))
  {
    hide Moved, Swap, Main;
    var u := Moved(t, prev, mp, n);
    var c, p := Swap(comp, mp, n), Swap(pos, mp, n);
    forall j | Live(u, j) ensures c[Main(hash, u[j].key, |u|)] == c[j] && p[Main(hash, u[j].key, |u|)] <= p[j] {
      var j' := Before(j, mp, n);
      assert Live(t, j') && t[j'].key == u[j].key;
      assert Main(hash, t[j'].key, |t|) != mp;
    }
  }

  lemma MoveNative(t: seq<Node>, hash: Val -> int, prev: int, mp: int, n: int)
    requires Native(t, hash) && Live(t, mp) && Free(t, n) && mp != n && 0 <= prev < |t| && prev != mp && prev != n
    requires forall j :: Live(t, j) ==> Main(hash, t[j].key, |t|) != n
    ensures Native(Moved(t, prev, mp, n), hash)
  {
    hide Moved, Main;
    var u := Moved(t, prev, mp, n);
    forall i, j | Live(u, i) && Live(u, j) && Main(hash, u[i].key, |u|) != i ensures Main(hash, u[j].key, |u|) != i {
      var i', j' := Before(i, mp, n), Before(j, mp, n);
      assert Live(t, i') && Live(t, j') && t[i'].key == u[i].key && t[j'].key == u[j].key;
    }
  }

  lemma MoveContents(t: seq<Node>, prev: int, mp: int, n: int)
    requires Distinct(t) && Live(t, mp) && Free(t, n) && mp != n && 0 <= prev < |t| && prev != mp && prev != n
    ensures Distinct(Moved(t, prev, mp, n)) && Contents(Moved(t, prev, mp, n)) == Contents(t)
  {
    hide Moved, Contents;
    var u := Moved(t, prev, mp, n);
    forall j | 0 <= j < |t| ensures Live(u, j) <==> Live(t, Before(j, mp, n)) {
    }
    assert Distinct(u) by {
      forall i, j | Live(u, i) && Live(u, j) && u[i].key == u[j].key ensures i == j {
        var i', j' := Before(i, mp, n), Before(j, mp, n);
        assert Live(t, i') && Live(t, j') && t[i'].key == t[j'].key;
      }
    }
    forall j | Live(t, j) ensures exists i :: Live(u, i) && u[i].key == t[j].key && u[i].val == t[j].val {
      assert Live(u, Before(j, mp, n));
    }
    forall j | Live(u, j) ensures exists i :: Live(t, i) && t[i].key == u[j].key && t[i].val == u[j].val {
      assert Live(t, Before(j, mp, n));
    }
    SameContents(t, u);
  }

  /** The predecessor of a node lent to another chain is found from its key's main position. */
  lemma Predecessor(t: seq<Node>, hash: Val -> int, comp: seq<int>, pos: seq<int>, mp: int, o: int)
    requires Chained(t, hash, comp, pos) && Live(t, mp) && 0 <= o < |t| && comp[o] == comp[mp] && pos[o] < pos[mp]
    ensures 0 <= t[o].next < |t| && comp[t[o].next] == comp[mp] && pos[t[o].next] <= pos[mp]
    ensures pos[t[o].next] > pos[o] && (t[o].next != mp ==> pos[t[o].next] < pos[mp])
  {
  }

  lemma RemoveChained(t: seq<Node>, hash: Val -> int, comp: seq<int>, pos: seq<int>, n: int)
    requires Chained(t, hash, comp, pos) && Live(t, n)
    ensures Chained(t[n := Node(Null, Null, t[n].next)], hash, comp, pos)
  {
    hide Homed, Native, Distinct, Linked;
    LinkedShape(t, comp, pos);
    var u := t[n := Node(Null, Null, t[n].next)];
    SameLinks(t, u, comp, pos);
    FewerKeys(t, u, hash, comp, pos);
  }

  /** Values are no part of the structure. */
  lemma ValueChained(t: seq<Node>, hash: Val -> int, comp: seq<int>, pos: seq<int>, n: int, v: Val)
    requires Chained(t, hash, comp, pos) && 0 <= n < |t|
    ensures Chained(t[n := t[n].(val := v)], hash, comp, pos)
  {
    hide Homed, Native, Distinct, Linked;
    LinkedShape(t, comp, pos);
    var u := t[n := t[n].(val := v)];
    SameLinks(t, u, comp, pos);
    FewerKeys(t, u, hash, comp, pos);
  }
}
