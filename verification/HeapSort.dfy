/** `_hsort`: heapsort in place, on a heap whose node r has the children 2r and 2r + 1, counted from index 0,
    so that index 0 is its own child and index 1 the only other one it has. */
module HeapSort {
  import opened Bytecode

  /** A comparison gives a sign, or raises an exception. */
  datatype Comparison = Order(sign: int) | Failed

  type Comparator = (Val, Val) -> Comparison

  ghost predicate Le(cmp: Comparator, x: Val, y: Val) {
    cmp(x, y).Order? && cmp(x, y).sign <= 0
  }

  /** A total preorder of the values in `d`, whose reversed comparison has the opposite sign. */
  ghost predicate Consistent(cmp: Comparator, d: multiset<Val>) {
    && (forall x, y :: x in d && y in d ==> cmp(x, y).Order?)
    && (forall x, y :: x in d && y in d ==> (cmp(x, y).sign > 0 <==> cmp(y, x).sign < 0))
    && (forall x, y, z :: x in d && y in d && z in d && Le(cmp, x, y) && Le(cmp, y, z) ==> Le(cmp, x, z))
  }

  ghost predicate In(s: seq<Val>, d: multiset<Val>) {
    forall i :: 0 <= i < |s| ==> s[i] in d
  }

  lemma Total(cmp: Comparator, d: multiset<Val>, x: Val, y: Val)
    requires Consistent(cmp, d) && x in d && y in d
    ensures Le(cmp, x, y) || Le(cmp, y, x)
    ensures Le(cmp, x, x) && cmp(x, x).sign == 0
  {
    assert cmp(x, y).sign > 0 <==> cmp(y, x).sign < 0;
    assert cmp(x, x).sign > 0 <==> cmp(x, x).sign < 0;
  }

  ghost predicate Sorted(cmp: Comparator, s: seq<Val>) {
    forall i, j :: 0 <= i < j < |s| ==> Le(cmp, s[i], s[j])
  }

  predicate Child(c: int, r: int) {
    c != r && (c == 2 * r || c == 2 * r + 1)
  }

  /** The children of node `r`, up to index `bottom`, are no greater than it. */
  ghost predicate Above(cmp: Comparator, s: seq<Val>, r: int, bottom: int)
    requires bottom < |s|
  {
    0 <= r <= bottom ==> forall c :: Child(c, r) && 0 <= c <= bottom ==> Le(cmp, s[c], s[r])
  }

  ghost predicate Heap(cmp: Comparator, s: seq<Val>, lo: int, bottom: int)
    requires bottom < |s|
  {
    forall r :: lo <= r <= bottom ==> Above(cmp, s, r, bottom)
  }

  function Swapped(s: seq<Val>, i: int, j: int): (t: seq<Val>)
    requires 0 <= i < |s| && 0 <= j < |s|
    ensures |t| == |s| && t[i] == s[j] && t[j] == s[i] && forall k :: 0 <= k < |s| && k != i && k != j ==> t[k] == s[k]
    ensures multiset(t) == multiset(s)
  {
    s[i := s[j]][j := s[i]]
  }

  /** The root of a heap is its greatest element. */
  lemma {:induction false} RootGreatest(cmp: Comparator, d: multiset<Val>, s: seq<Val>, bottom: int, k: int)
    requires Consistent(cmp, d) && bottom < |s| && Heap(cmp, s, 0, bottom) && 0 <= k <= bottom
    requires forall i :: 0 <= i <= bottom ==> s[i] in d
    ensures Le(cmp, s[k], s[0])
    decreases k
  {
    if k == 0 {
      Total(cmp, d, s[0], s[0]);
    } else {
      var p := k / 2;
      RootGreatest(cmp, d, s, bottom, p);
      assert Above(cmp, s, p, bottom) && Child(k, p);
      assert Le(cmp, s[k], s[p]) && Le(cmp, s[p], s[0]);
    }
  }

  /** Sifting: the subtrees below are heaps but for the node `root`, and what is above `root` is above its
      children. */
  ghost predicate Sifting(cmp: Comparator, s: seq<Val>, lo: int, root: int, bottom: int)
    requires bottom < |s|
  {
    && lo <= root
    && (forall r :: lo <= r <= bottom && r != root ==> Above(cmp, s, r, bottom))
    && (forall p, c :: lo <= p && Child(root, p) && Child(c, root) && 0 <= c <= bottom ==> Le(cmp, s[c], s[p]))
  }

  /** One step down: the greater child comes up. */
  lemma SiftStep(cmp: Comparator, d: multiset<Val>, s: seq<Val>, lo: int, root: int, bottom: int, m: int)
    requires In(s, d) && Consistent(cmp, d) && 0 <= lo <= root <= bottom < |s| && Sifting(cmp, s, lo, root, bottom)
    requires Child(m, root) && m <= bottom && Le(cmp, s[root], s[m])
    requires forall c :: Child(c, root) && 0 <= c <= bottom ==> Le(cmp, s[c], s[m])
    ensures Sifting(cmp, Swapped(s, root, m), lo, m, bottom)
  {
    var t := Swapped(s, root, m);
    forall r | lo <= r <= bottom && r != m ensures Above(cmp, t, r, bottom) {
      forall c | Child(c, r) && 0 <= c <= bottom ensures Le(cmp, t[c], t[r]) {
        if r == root {
          Total(cmp, d, s[root], s[root]);
        } else {
          assert Above(cmp, s, r, bottom);
          assert Le(cmp, s[c], s[r]);
          if c == root {
            assert Le(cmp, s[m], s[r]);
          }
        }
      }
    }
    forall p, c | lo <= p && Child(m, p) && Child(c, m) && 0 <= c <= bottom ensures Le(cmp, t[c], t[p]) {
      assert p == root;
      assert Above(cmp, s, m, bottom);
    }
  }

  /** Nothing to do: the node is above its children. */
  lemma SiftDone(cmp: Comparator, s: seq<Val>, lo: int, root: int, bottom: int)
    requires bottom < |s| && Sifting(cmp, s, lo, root, bottom) && Above(cmp, s, root, bottom)
    ensures Heap(cmp, s, lo, bottom)
  {
  }

  /** After the greatest element was swapped to the end, the rest is a heap but for its root. */
  lemma SwapOut(cmp: Comparator, d: multiset<Val>, s: seq<Val>, i: int)
    requires In(s, d) && Consistent(cmp, d) && 0 < i < |s| && Heap(cmp, s, 0, i)
    ensures Sifting(cmp, Swapped(s, 0, i), 0, 0, i - 1)
  {
    var t, bottom := Swapped(s, 0, i), i - 1;
    forall r | 0 <= r <= bottom && r != 0 ensures Above(cmp, t, r, bottom) {
      assert Above(cmp, s, r, i);
    }
  }

  method SiftDown(a: array<Val>, cmp: Comparator, start: int, bottom: int, ghost lo: int, ghost d: multiset<Val>)
      returns (ok: bool)
    requires 0 <= lo <= start && -1 <= bottom < a.Length && multiset(a[..]) == d
    requires Consistent(cmp, d) ==> Sifting(cmp, a[..], lo, start, bottom)
    modifies a
    ensures multiset(a[..]) == d
    ensures Consistent(cmp, d) ==> ok && Heap(cmp, a[..], lo, bottom)
    ensures forall k :: bottom < k < a.Length ==> a[k] == old(a[k])
  {
    hide Consistent, Sifting, Heap, Above;
    var root, done := start, false;
    ok := true;
    while root * 2 <= bottom && !done
      invariant start <= root && ok && multiset(a[..]) == d
      invariant forall k :: bottom < k < a.Length ==> a[k] == old(a[k])
      invariant Consistent(cmp, d) && !done ==> Sifting(cmp, a[..], lo, root, bottom)
      invariant Consistent(cmp, d) && done ==> Heap(cmp, a[..], lo, bottom)
      decreases bottom - root, !done
    {
      ok, done, root := SiftOnce(a, cmp, root, bottom, lo, d);
      if !ok {
        return false;
      }
    }
    if Consistent(cmp, d) && !done {
      NoChildren(cmp, a[..], root, bottom);
      SiftDone(cmp, a[..], lo, root, bottom);
    }
  }

  method SwapAt(a: array<Val>, i: int, j: int)
    requires 0 <= i < a.Length && 0 <= j < a.Length
    modifies a
    ensures a[..] == Swapped(old(a[..]), i, j)
    ensures multiset(a[..]) == multiset(old(a[..]))
    ensures forall k :: 0 <= k < a.Length && k != i && k != j ==> a[k] == old(a[k])
  {
    ghost var s := a[..];
    a[i], a[j] := a[j], a[i];
    assert a[..] == Swapped(s, i, j);
  }

  /** One turn of the loop: compare, and swap with the greater child if it is greater. */
  method SiftOnce(a: array<Val>, cmp: Comparator, root: int, bottom: int, ghost lo: int, ghost d: multiset<Val>)
      returns (ok: bool, done: bool, next: int)
    requires 0 <= lo <= root && root * 2 <= bottom < a.Length && multiset(a[..]) == d
    requires Consistent(cmp, d) ==> Sifting(cmp, a[..], lo, root, bottom)
    modifies a
    ensures multiset(a[..]) == d && forall k :: bottom < k < a.Length ==> a[k] == old(a[k])
    ensures Consistent(cmp, d) ==>
      ok && if done then Heap(cmp, a[..], lo, bottom) else Sifting(cmp, a[..], lo, next, bottom)
    ensures ok ==> next >= root && (done || next > root) && (!done ==> next <= bottom)
  {
    hide Consistent, Sifting, Heap, Above, Swapped, Child, Le;
    AllIn(a[..], d);
    var maxChild, chosen := Choose(a, cmp, root, bottom, d);
    if !chosen {
      return false, false, root;
    }
    var ret := cmp(a[root], a[maxChild]);
    NeverFails(cmp, d, a[root], a[maxChild]);
    if ret.Failed? {
      return false, false, root;
    }
    ghost var s := a[..];
    if ret.sign < 0 {
      SelfEqual(cmp, d, a[root]);
      if root == maxChild {
        return false, false, root;
      }
      if Consistent(cmp, d) {
        LessChild(cmp, d, s, root, maxChild, bottom);
        SiftStep(cmp, d, s, lo, root, bottom, maxChild);
      }
      SwapAt(a, root, maxChild);
      return true, false, maxChild;
    }
    if Consistent(cmp, d) {
      GreaterRoot(cmp, d, s, root, maxChild, bottom);
      SiftDone(cmp, s, lo, root, bottom);
    }
    return true, true, root;
  }

  /** The greater child of `root`; for root 0, whose first child is itself, that may be 0. */
  method Choose(a: array<Val>, cmp: Comparator, root: int, bottom: int, ghost d: multiset<Val>)
      returns (maxChild: int, ok: bool)
    requires 0 <= root && root * 2 <= bottom < a.Length && multiset(a[..]) == d
    ensures Consistent(cmp, d) ==> ok
    ensures ok ==> (maxChild == 2 * root || maxChild == 2 * root + 1) && maxChild <= bottom
    ensures ok && Consistent(cmp, d) ==> forall c :: Child(c, root) && 0 <= c <= bottom ==> Le(cmp, a[c], a[maxChild])
  {
    AllIn(a[..], d);
    var root2 := root * 2;
    if root2 == bottom {
      if Consistent(cmp, d) {
        Total(cmp, d, a[root2], a[root2]);
      }
      return root2, true;
    }
    var ret := cmp(a[root2], a[root2 + 1]);
    if ret.Failed? {
      return root2, false;
    }
    if Consistent(cmp, d) {
      Total(cmp, d, a[root2], a[root2]);
      Total(cmp, d, a[root2 + 1], a[root2 + 1]);
      Total(cmp, d, a[root2], a[root2 + 1]);
    }
    return if ret.sign > 0 then root2 else root2 + 1, true;
  }

  lemma NeverFails(cmp: Comparator, d: multiset<Val>, x: Val, y: Val)
    ensures Consistent(cmp, d) && x in d && y in d ==> cmp(x, y).Order?
  {
  }

  lemma SelfEqual(cmp: Comparator, d: multiset<Val>, x: Val)
    ensures Consistent(cmp, d) && x in d ==> cmp(x, x).Order? && cmp(x, x).sign == 0
  {
    if Consistent(cmp, d) && x in d {
      Total(cmp, d, x, x);
    }
  }

  lemma LessChild(cmp: Comparator, d: multiset<Val>, s: seq<Val>, root: int, m: int, bottom: int)
    requires In(s, d) && Consistent(cmp, d) && 0 <= root <= bottom < |s| && 0 <= m <= bottom && m != root
      && (m == 2 * root || m == 2 * root + 1)
    requires cmp(s[root], s[m]).sign < 0
    ensures Child(m, root) && Le(cmp, s[root], s[m])
  {
  }

  lemma GreaterRoot(cmp: Comparator, d: multiset<Val>, s: seq<Val>, root: int, m: int, bottom: int)
    requires In(s, d) && Consistent(cmp, d) && 0 <= root <= bottom < |s| && 0 <= m <= bottom
    requires cmp(s[root], s[m]).sign >= 0
    requires forall c :: Child(c, root) && 0 <= c <= bottom ==> Le(cmp, s[c], s[m])
    ensures Above(cmp, s, root, bottom)
  {
    Total(cmp, d, s[root], s[m]);
    assert Le(cmp, s[m], s[root]);
  }

  lemma NoChildren(cmp: Comparator, s: seq<Val>, root: int, bottom: int)
    requires bottom < |s| && root * 2 > bottom && 0 <= root
    ensures Above(cmp, s, root, bottom)
  {
  }

  method HSort(a: array<Val>, cmp: Comparator) returns (ok: bool)
    modifies a
    ensures multiset(a[..]) == multiset(old(a[..]))
    ensures Consistent(cmp, multiset(old(a[..]))) ==> ok && Sorted(cmp, a[..])
  {
    hide Consistent, Heap, Sorted;
    ghost var d := multiset(a[..]);
    ok := BuildHeap(a, cmp, d);
    if ok {
      ok := SortHeap(a, cmp, d);
    }
  }

  method BuildHeap(a: array<Val>, cmp: Comparator, ghost d: multiset<Val>) returns (ok: bool)
    requires multiset(a[..]) == d
    modifies a
    ensures multiset(a[..]) == d
    ensures Consistent(cmp, d) ==> ok && Heap(cmp, a[..], 0, a.Length - 1)
  {
    hide Consistent, Sifting, Heap, Above, Le;
    var n := a.Length;
    var i := n / 2;
    LeavesHeap(cmp, a[..], n / 2 + 1);
    while i >= 0
      invariant -1 <= i <= n / 2 && multiset(a[..]) == d
      invariant Consistent(cmp, d) ==> Heap(cmp, a[..], i + 1, n - 1)
    {
      HeapSifting(cmp, d, a[..], i, n - 1);
      ok := SiftDown(a, cmp, i, n - 1, i, d);
      if !ok {
        return false;
      }
      i := i - 1;
    }
    return true;
  }

  method SortHeap(a: array<Val>, cmp: Comparator, ghost d: multiset<Val>) returns (ok: bool)
    requires multiset(a[..]) == d && (Consistent(cmp, d) ==> Heap(cmp, a[..], 0, a.Length - 1))
    modifies a
    ensures multiset(a[..]) == d
    ensures Consistent(cmp, d) ==> ok && Sorted(cmp, a[..])
  {
    hide Consistent, Heap, Sorted, Tail;
    var n := a.Length;
    var i := n - 1;
    NothingSorted(cmp, a[..]);
    while i >= 1
      invariant -1 <= i < n && multiset(a[..]) == d
      invariant Consistent(cmp, d) ==> Heap(cmp, a[..], 0, i) && Tail(cmp, a[..], i + 1)
    {
      ok := TakeGreatest(a, cmp, i, d);
      if !ok {
        return false;
      }
      i := i - 1;
    }
    if Consistent(cmp, d) {
      TailSorted(cmp, a[..], i);
    }
    return true;
  }

  /** The root goes behind the heap, and the heap is repaired. */
  method TakeGreatest(a: array<Val>, cmp: Comparator, i: int, ghost d: multiset<Val>) returns (ok: bool)
    requires 1 <= i < a.Length && multiset(a[..]) == d
    requires Consistent(cmp, d) ==> Heap(cmp, a[..], 0, i) && Tail(cmp, a[..], i + 1)
    modifies a
    ensures multiset(a[..]) == d
    ensures Consistent(cmp, d) ==> ok && Heap(cmp, a[..], 0, i - 1) && Tail(cmp, a[..], i)
  {
    hide Consistent, Sifting, Heap, Above, Le, Swapped, Tail;
    ghost var s := a[..];
    AllIn(s, d);
    if Consistent(cmp, d) {
      SwapOut(cmp, d, s, i);
      TailGrows(cmp, d, s, i);
    }
    SwapAt(a, 0, i);
    ghost var t := a[..];
    ok := SiftDown(a, cmp, 0, i - 1, 0, d);
    if ok && Consistent(cmp, d) {
      TailKept(cmp, t, a[..], i);
    }
  }

  lemma AllIn(s: seq<Val>, d: multiset<Val>)
    requires multiset(s) == d
    ensures In(s, d)
  {
    forall i | 0 <= i < |s| ensures s[i] in d {
      assert s[i] in s;
    }
  }

  /** From index `m` on the array is sorted, and nothing before it is greater. */
  ghost predicate Tail(cmp: Comparator, s: seq<Val>, m: int) {
    && 0 <= m
    && forall i, j :: 0 <= i < j < |s| && m <= j ==> Le(cmp, s[i], s[j])
  }

  lemma LeavesHeap(cmp: Comparator, s: seq<Val>, lo: int)
    requires lo >= 0 && 2 * lo > |s| - 1
    ensures Heap(cmp, s, lo, |s| - 1)
  {
  }

  lemma HeapSifting(cmp: Comparator, d: multiset<Val>, s: seq<Val>, i: int, bottom: int)
    requires bottom < |s| && i >= 0
    ensures Consistent(cmp, d) && Heap(cmp, s, i + 1, bottom) ==> Sifting(cmp, s, i, i, bottom)
  {
  }

  lemma NothingSorted(cmp: Comparator, s: seq<Val>)
    ensures Tail(cmp, s, |s|)
  {
  }

  lemma TailGrows(cmp: Comparator, d: multiset<Val>, s: seq<Val>, i: int)
    requires In(s, d) && Consistent(cmp, d) && 0 < i < |s| && Heap(cmp, s, 0, i) && Tail(cmp, s, i + 1)
    ensures Tail(cmp, Swapped(s, 0, i), i)
  {
    var t := Swapped(s, 0, i);
    forall a, b | 0 <= a < b < |t| && i <= b ensures Le(cmp, t[a], t[b]) {
      if b == i {
        RootGreatest(cmp, d, s, i, if a == 0 then i else a);
      } else {
        assert t[b] == s[b];
        assert t[a] == s[if a == 0 then i else if a == i then 0 else a];
      }
    }
  }

  /** Rearranging what comes before the tail. */
  lemma TailKept(cmp: Comparator, t: seq<Val>, u: seq<Val>, i: int)
    requires |t| == |u| && 0 < i < |t| && Tail(cmp, t, i) && multiset(t) == multiset(u) && forall k :: i <= k < |t| ==>
      u[k] == t[k]
    ensures Tail(cmp, u, i)
  {
    forall a, b | 0 <= a < b < |u| && i <= b ensures Le(cmp, u[a], u[b]) {
      if a < i {
        PrefixMember(t, u, i, u[a]);
        var k :| 0 <= k < i && t[k] == u[a];
        assert Le(cmp, t[k], t[b]);
      } else {
        assert Le(cmp, t[a], t[b]);
      }
    }
  }

  lemma PrefixMember(t: seq<Val>, u: seq<Val>, i: int, x: Val)
    requires |t| == |u| && 0 <= i <= |t| && multiset(t) == multiset(u) && t[i..] == u[i..] && x in u[..i]
    ensures exists k :: 0 <= k < i && t[k] == x
  {
    assert t == t[..i] + t[i..] && u == u[..i] + u[i..];
    assert multiset(t) == multiset(t[..i]) + multiset(t[i..]) && multiset(u) == multiset(u[..i]) + multiset(u[i..]);
    assert multiset(t[..i]) == multiset(t) - multiset(t[i..]) == multiset(u[..i]);
    assert x in multiset(u[..i]);
    assert x in t[..i];
  }

  lemma TailSorted(cmp: Comparator, s: seq<Val>, i: int)
    requires Tail(cmp, s, i + 1) && i <= 0
    ensures Sorted(cmp, s)
  {
  }

  // --- the comparison used when none is given

  /** Strings up to their first NUL, by character. */
  function StrCmp(a: string, b: string): int {
    var x, y := if a == [] then 0 else a[0] as int, if b == [] then 0 else b[0] as int;
    if x != y then x - y else if x == 0 then 0 else StrCmp(a[1..], b[1..])
  }

  predicate SameKind(x: Val, y: Val) {
    match x
    case Null => y.Null?
    case Bool(_) => y.Bool?
    case Int(_) => y.Int?
    case Float(_) => y.Float?
    case Str(_) => y.Str?
    case Obj(_) => y.Obj?
  }

  predicate Numeric(x: Val) {
    x.Int? || x.Float?
  }

  /** `LVVM::ObjCmp`; `rest` is the order of floating-point numbers and of objects. */
  function ObjCmp(x: Val, y: Val, rest: Comparator): Comparison {
    if x == y then Order(0)
    else if SameKind(x, y) then
      match x
      case Str(a) => Order(StrCmp(a, y.s))
      case Int(a) => Order(if a < y.i then -1 else 1)
      case Bool(a) => Order(if y.b then -1 else 1)
      case _ => rest(x, y)
    else if Numeric(x) && Numeric(y) then rest(x, y)
    else if x.Null? then Order(-1)
    else if y.Null? then Order(1)
    else Failed
  }

  predicate Plain(x: Val) {
    x.Null? || x.Bool? || x.Int? || x.Str?
  }

  /** Without nulls, the values are of one kind. */
  ghost predicate OneKind(d: multiset<Val>) {
    forall x, y :: x in d && y in d ==> x.Null? || y.Null? || SameKind(x, y)
  }

  lemma {:induction false} StrSign(a: string, b: string)
    ensures StrCmp(a, b) == -StrCmp(b, a)
    decreases |a|
  {
    if a != [] && b != [] {
      StrSign(a[1..], b[1..]);
    }
  }

  lemma {:induction false} StrTrans(a: string, b: string, c: string)
    requires StrCmp(a, b) <= 0 && StrCmp(b, c) <= 0
    ensures StrCmp(a, c) <= 0
    decreases |a|
  {
    if a != [] && b != [] && c != [] && a[0] == b[0] == c[0] && a[0] as int != 0 {
      StrTrans(a[1..], b[1..], c[1..]);
    }
  }

  lemma CmpSign(x: Val, y: Val, rest: Comparator)
    requires Plain(x) && Plain(y) && (x.Null? || y.Null? || SameKind(x, y))
    ensures ObjCmp(x, y, rest).Order? && ObjCmp(y, x, rest).Order?
    ensures ObjCmp(x, y, rest).sign > 0 <==> ObjCmp(y, x, rest).sign < 0
  {
    if x.Str? && y.Str? {
      StrSign(x.s, y.s);
    }
  }

  lemma CmpTrans(x: Val, y: Val, z: Val, rest: Comparator)
    requires Plain(x) && Plain(y) && Plain(z)
    requires (x.Null? || y.Null? || SameKind(x, y)) && (x.Null? || z.Null? || SameKind(x, z))
      && (y.Null? || z.Null? || SameKind(y, z))
    requires ObjCmp(x, y, rest).sign <= 0 && ObjCmp(y, z, rest).sign <= 0
    ensures ObjCmp(x, z, rest).sign <= 0
  {
    if x.Str? && y.Str? && z.Str? && x != y && y != z {
      StrTrans(x.s, y.s, z.s);
    }
  }

  /** Arrays of nulls, booleans, integers and strings are sorted without a comparison of one's own exactly if
      they hold, but for nulls, one kind of values. */
  lemma ObjCmpIff(cmp: Comparator, rest: Comparator, d: multiset<Val>)
    requires forall x, y :: cmp(x, y) == ObjCmp(x, y, rest)
    requires forall x :: x in d ==> Plain(x)
    ensures Consistent(cmp, d) <==> OneKind(d)
  {
    hide ObjCmp, SameKind;
    if OneKind(d) {
      forall x, y | x in d && y in d
        ensures cmp(x, y).Order? && cmp(y, x).Order? && (cmp(x, y).sign > 0 <==> cmp(y, x).sign < 0)
      {
        CmpSign(x, y, rest);
      }
      forall x, y, z | x in d && y in d && z in d && Le(cmp, x, y) && Le(cmp, y, z) ensures Le(cmp, x, z) {
        CmpSign(x, y, rest);
        CmpSign(y, z, rest);
        CmpSign(x, z, rest);
        CmpTrans(x, y, z, rest);
      }
    } else {
      var x, y :| x in d && y in d && !(x.Null? || y.Null? || SameKind(x, y));
      Mixed(x, y, rest);
    }
  }

  lemma Mixed(x: Val, y: Val, rest: Comparator)
    requires Plain(x) && Plain(y) && !(x.Null? || y.Null? || SameKind(x, y))
    ensures ObjCmp(x, y, rest).Failed?
  {
  }
}
