/** Garbage collection: every collectable is in one doubly linked chain; marking moves what the roots reach to
    a second one. Objects are indices into the arrays that hold their links and reference counts. */
module Collector {
  import opened References

  const NULL := -1
  const MARK_FLAG := 0x8000_0000

  /** What an object refers to. NULL stands for every value that is not collectable. */
  datatype Body =
    | ArrayObj(values: seq<int>)
    | TableObj(delegate: int, nodes: seq<(int, int)>)
    | ClassObj(members: int, base: int, attributes: int, defaults: seq<(int, int)>, methods: seq<(int, int)>,
      metamethods: seq<int>)
    | InstanceObj(cls: int, values: seq<int>)
    | GeneratorObj(stack: seq<int>, closure: int)
    | PrototypeObj(literals: seq<int>, functions: seq<int>)
    | ClosureObj(base: int, prototype: int, outervalues: seq<int>, defaultparams: seq<int>)
    | NativeObj(outervalues: seq<int>)
    | OuterObj(closed: bool, value: int)
    | UserDataObj(delegate: int)
    | ThreadObj(fields: seq<int>, stack: seq<int>, closures: seq<int>, openouters: seq<int>)

  function Pairs(ps: seq<(int, int)>): seq<int> {
    if ps == [] then [] else [ps[0].0, ps[0].1] + Pairs(ps[1..])
  }

  /** The objects its Mark method visits, in order. An outer still open does not own its value. */
  function Children(b: Body): seq<int> {
    match b
    case ArrayObj(values) => values
    case TableObj(delegate, nodes) => [delegate] + Pairs(nodes)
    case ClassObj(members, base, attributes, defaults, methods, metamethods) =>
      [members, base, attributes] + Pairs(defaults) + Pairs(methods) + metamethods
    case InstanceObj(cls, values) => [cls] + values
    case GeneratorObj(stack, closure) => stack + [closure]
    case PrototypeObj(literals, functions) => literals + functions
    case ClosureObj(base, prototype, outervalues, defaultparams) => [base, prototype] + outervalues + defaultparams
    case NativeObj(outervalues) => outervalues
    case OuterObj(closed, value) => if closed then [value] else []
    case UserDataObj(delegate) => [delegate]
    case ThreadObj(fields, stack, closures, _) => fields + stack + closures
  }

  /** Finalizing closes the outers that are open on a thread's stack. */
  predicate Shut(b: Body) {
    b.ThreadObj? ==> b.openouters == []
  }

  /** The references that its Finalize gives up. A closure keeps its prototype and base until it is destroyed,
      a prototype the prototypes nested in it. */
  function Loose(b: Body): seq<int> {
    match b
    case ClosureObj(_, _, outervalues, defaultparams) => outervalues + defaultparams
    case PrototypeObj(literals, _) => literals
    case _ => Children(b)
  }

  function Kept(b: Body): seq<int> {
    match b
    case ClosureObj(base, prototype, _, _) => [base, prototype]
    case PrototypeObj(_, functions) => functions
    case _ => []
  }

  /** The objects that an array of the unreachable holds. */
  function Listed(g: Graph, s: seq<int>): (r: seq<int>)
    requires Within(s, |g|)
    ensures forall x :: x in r ==> x in s
  {
    if s == [] then []
    else
      var x := s[|s| - 1];
      Listed(g, s[..|s| - 1]) + if g[x].PrototypeObj? || g[x].OuterObj? then [] else [x]
  }

  /** Without the values that are not collectable. */
  function Strong(s: seq<int>): (r: seq<int>)
    ensures forall x :: x in r <==> x in s && x != NULL
  {
    if s == [] then [] else (if s[0] == NULL then [] else [s[0]]) + Strong(s[1..])
  }

  type Graph = seq<Body>

  /** Every reference leads to an object. Indices in `absent` stand for none. */
  ghost predicate Sound(g: Graph, absent: set<int>) {
    forall x, k :: 0 <= x < |g| && 0 <= k < |Children(g[x])| ==>
      NULL <= Children(g[x])[k] < |g| && (x !in absent && Children(g[x])[k] != NULL ==> Children(g[x])[k] !in absent)
  }

  ghost predicate Closed(g: Graph, s: set<int>) {
    forall x, k :: x in s && 0 <= x < |g| && 0 <= k < |Children(g[x])| && Children(g[x])[k] != NULL ==>
      Children(g[x])[k] in s
  }

  /** The least set that holds the roots and everything its members refer to. */
  ghost predicate Reachable(g: Graph, roots: seq<int>, s: set<int>) {
    && (forall r :: r in roots && r != NULL ==> r in s)
    && Closed(g, s)
    && forall t: set<int> :: (forall r :: r in roots && r != NULL ==> r in t) && Closed(g, t) ==> s <= t
  }

  /** There is only one such set. */
  lemma ReachableUnique(g: Graph, roots: seq<int>, s: set<int>, t: set<int>)
    requires Reachable(g, roots, s) && Reachable(g, roots, t)
    ensures s == t
  {
    assert s <= t && t <= s;
  }

  // --- doubly linked chains

  function NextOf(s: seq<int>, i: int): int
    requires 0 <= i < |s|
  {
    if i + 1 < |s| then s[i + 1] else NULL
  }

  function PrevOf(s: seq<int>, i: int): int
    requires 0 <= i < |s|
  {
    if i > 0 then s[i - 1] else NULL
  }

  ghost predicate Within(s: seq<int>, n: int) {
    forall i :: 0 <= i < |s| ==> 0 <= s[i] < n
  }

  /** `s` is the chain that starts at `head`. */
  ghost predicate Chain(next: seq<int>, prev: seq<int>, head: int, s: seq<int>) {
    && |next| == |prev| && Within(s, |next|) && Distinct(s)
    && head == (if s == [] then NULL else s[0])
    && (forall i :: 0 <= i < |s| ==> next[s[i]] == NextOf(s, i) && prev[s[i]] == PrevOf(s, i))
  }

  /** Links elsewhere do not matter. */
  lemma ChainApart(next: seq<int>, prev: seq<int>, next': seq<int>, prev': seq<int>, head: int, s: seq<int>)
    requires Chain(next, prev, head, s) && |next'| == |prev'| == |next|
    requires forall i :: 0 <= i < |s| ==> next'[s[i]] == next[s[i]] && prev'[s[i]] == prev[s[i]]
    ensures Chain(next', prev', head, s)
  {
  }

  function Without(s: seq<int>, k: int): (t: seq<int>)
    requires 0 <= k < |s|
    ensures |t| == |s| - 1 && forall i :: 0 <= i < |t| ==> t[i] == s[if i < k then i else i + 1]
  {
    s[..k] + s[k + 1..]
  }

  function Unlink(links: seq<int>, at: int, to: int, c: int): (r: seq<int>)
    requires 0 <= c < |links| && (at != NULL ==> 0 <= at < |links|)
    ensures |r| == |links| && r[c] == NULL && forall x :: 0 <= x < |r| && x != c ==>
      r[x] == if x == at then to else links[x]
  {
    var l := if at != NULL then links[at := to] else links;
    l[c := NULL]
  }

  lemma Removed(next: seq<int>, prev: seq<int>, head: int, s: seq<int>, k: int)
    requires Chain(next, prev, head, s) && 0 <= k < |s|
    ensures 0 <= s[k] < |next|
    ensures var c := s[k]; var head' := if prev[c] != NULL then head else next[c];
      && (prev[c] != NULL ==> 0 <= prev[c] < |next|) && (next[c] != NULL ==> 0 <= next[c] < |next|)
      && Chain(Unlink(next, prev[c], next[c], c), Unlink(prev, next[c], prev[c], c), head', Without(s, k))
    ensures var c := s[k];
      && (forall x :: 0 <= x < |next| && x !in s ==> x != c && x != prev[c] && x != next[c])
      && (prev[c] == NULL || prev[c] in s) && (next[c] == NULL || next[c] in s)
  {
    var c := s[k];
    var t := Without(s, k);
    var n', p' := Unlink(next, prev[c], next[c], c), Unlink(prev, next[c], prev[c], c);
    forall i | 0 <= i < |t| ensures n'[t[i]] == NextOf(t, i) && p'[t[i]] == PrevOf(t, i) {
      var j := if i < k then i else i + 1;
      assert t[i] == s[j] && j != k;
      if j + 1 == k {
        assert prev[c] == s[j];
      } else {
        assert prev[c] == NULL || prev[c] == s[k - 1];
      }
      if j == k + 1 {
        assert next[c] == s[j];
      }
    }
  }

  lemma Added(next: seq<int>, prev: seq<int>, head: int, s: seq<int>, c: int)
    requires Chain(next, prev, head, s) && 0 <= c < |next| && c !in s
    ensures (head != NULL ==> 0 <= head < |prev| && head in s && head != c)
    ensures Chain(next[c := head], if head != NULL then prev[c := NULL][head := c] else prev[c := NULL], c, [c] + s)
  {
    var n', p' := next[c := head], if head != NULL then prev[c := NULL][head := c] else prev[c := NULL];
    var t := [c] + s;
    forall i | 0 <= i < |t| ensures n'[t[i]] == NextOf(t, i) && p'[t[i]] == PrevOf(t, i) {
      if i > 0 {
        assert t[i] == s[i - 1] && s[i - 1] in s;
        assert i > 1 ==> s[i - 1] != s[0];
      }
    }
  }

  function LooseLists(g: Graph): (r: seq<seq<int>>)
    ensures |r| == |g| && forall x :: 0 <= x < |g| ==> r[x] == Strong(Loose(g[x]))
  {
    seq(|g|, i requires 0 <= i < |g| => Strong(Loose(g[i])))
  }

  function KeptLists(g: Graph): (r: seq<seq<int>>)
    ensures |r| == |g| && forall x :: 0 <= x < |g| ==> r[x] == Strong(Kept(g[x]))
  {
    seq(|g|, i requires 0 <= i < |g| => Strong(Kept(g[i])))
  }

  /** The references to an object: from elsewhere, and of the objects. */
  function Count(g: Graph, outside: seq<int>, x: int): int
    requires 0 <= x < |g| == |outside|
  {
    outside[x] + Total(LooseLists(g))[x] + Total(KeptLists(g))[x]
  }

  /** A chain of all indices in order. */
  lemma FreshChain(next: seq<int>, prev: seq<int>, n: nat)
    requires |next| == |prev| == n && forall i :: 0 <= i < n ==>
      next[i] == (if i + 1 < n then i + 1 else NULL) && prev[i] == if i > 0 then i - 1 else NULL
    ensures Chain(next, prev, if n > 0 then 0 else NULL, seq(n, i => i))
  {
  }

  class LVSharedState {
    var graph: Graph
    const next: array<int>
    const prev: array<int>
    const uiRef: array<int>
    const loose: array<seq<int>>    // references an object holds until it is finalized
    const kept: array<seq<int>>     // and until it is released
    var gcChain: int
    ghost var gc: seq<int>          // the chain at `gcChain`
    ghost var counts: seq<int>      // reference counts, without the flag
    var markChain: int
    ghost var marked: seq<int>      // the chain at `markChain`
    ghost var outside: seq<int>     // references from elsewhere
    ghost var freed: set<int>       // the objects released
    ghost var absent: set<int>      // indices without an object
    ghost var order: seq<int>       // the chain when marking began

    ghost predicate Arrays()
      reads this, uiRef
    {
      && Sound(graph, absent) && (forall x :: x in absent ==> 0 <= x < |graph|) && next != prev && prev != uiRef
      && next != uiRef
      && next.Length == |graph| && prev.Length == |graph| && uiRef.Length == |graph| && |counts| == |graph|
      && (forall x :: 0 <= x < |graph| ==>
      0 <= counts[x] < MARK_FLAG && (uiRef[x] == counts[x] || uiRef[x] == counts[x] + MARK_FLAG))
    }

    predicate Marked(x: int)
      reads uiRef
      requires 0 <= x < uiRef.Length
    {
      uiRef[x] >= MARK_FLAG
    }

    /** Between collections: nothing is marked and every object is in the chain. */
    ghost predicate Valid()
      reads this, next, prev, uiRef
    {
      && Arrays() && Chain(next[..], prev[..], gcChain, gc)
      && (forall x :: 0 <= x < |graph| ==> !Marked(x) && (x in gc <==> x !in absent))
    }

    ghost predicate Owning()
      reads this`graph
    {
      loose.Length == |graph| && kept.Length == |graph| && loose != kept
    }

    /** A heap of these objects, all of them in the chain. */
    constructor (graph: Graph, outside: seq<int>)
      requires Sound(graph, {}) && |outside| == |graph|
      requires forall x :: 0 <= x < |graph| ==> outside[x] >= 0 && Count(graph, outside, x) + 1 < MARK_FLAG
      ensures Valid() && Counted() && this.graph == graph && this.outside == outside && absent == {}
      ensures gc == seq(|graph|, i => i) && fresh(next) && fresh(prev) && fresh(uiRef) && fresh(loose) && fresh(kept)
    {
      hide *;
      var n := |graph|;
      this.graph, this.outside := graph, outside;
      next := new int[n](i => if i + 1 < n then i + 1 else NULL);
      prev := new int[n](i => if i > 0 then i - 1 else NULL);
      uiRef := new int[n](i requires 0 <= i < |graph| == |outside| => Count(graph, outside, i));
      loose := new seq<int>[n](i requires 0 <= i < |graph| => Strong(Loose(graph[i])));
      kept := new seq<int>[n](i requires 0 <= i < |graph| => Strong(Kept(graph[i])));
      gcChain := if n > 0 then 0 else NULL;
      gc := seq(n, i => i);
      counts := seq(n, i requires 0 <= i < |graph| == |outside| => Count(graph, outside, i));
      markChain, marked, freed, absent, order := NULL, [], {}, {}, [];
      new;
      Begun();
    }

    lemma Begun()
      requires Sound(graph, {}) && absent == {} && freed == {} && |outside| == |graph| == |counts|
      requires next != prev && prev != uiRef && next != uiRef && loose != kept
      requires next.Length == prev.Length == uiRef.Length == loose.Length == kept.Length == |graph|
      requires gcChain == (if |graph| > 0 then 0 else NULL) && gc == seq(|graph|, i => i)
      requires forall x :: 0 <= x < |graph| ==>
        && next[x] == (if x + 1 < |graph| then x + 1 else NULL) && prev[x] == (if x > 0 then x - 1 else NULL)
        && uiRef[x] == counts[x] == Count(graph, outside, x)
        && loose[x] == Strong(Loose(graph[x])) && kept[x] == Strong(Kept(graph[x]))
      requires forall x :: 0 <= x < |graph| ==> outside[x] >= 0 && Count(graph, outside, x) + 1 < MARK_FLAG
      ensures Valid() && Counted()
    {
      hide Chain, Sound, Total, Strong, Loose, Kept;
      FreshChain(next[..], prev[..], |graph|);
      assert loose[..] == LooseLists(graph) && kept[..] == KeptLists(graph);
      forall x | 0 <= x < |graph| ensures x in gc {
        assert gc[x] == x;
      }
    }

    /** Reference counts count the references of other objects and those from elsewhere. */
    ghost predicate Counted()
      reads this`graph, this`absent, this`freed, this`outside, this`counts, loose, kept
    {
      CountedAs(counts)
    }

    ghost predicate CountedAs(c: seq<int>)
      reads this`graph, this`absent, this`freed, this`outside, loose, kept
    {
      && Owning() && freed == {} && |outside| == |c| == |graph|
      && (forall x :: 0 <= x < |graph| && x !in absent ==>
        loose[x] == Strong(Loose(graph[x])) && kept[x] == Strong(Kept(graph[x])))
      && (forall x :: x in absent && 0 <= x < |graph| ==> c[x] == 0 && loose[x] == [] && kept[x] == [])
      && (forall x :: 0 <= x < |graph| ==>
            outside[x] >= 0 && c[x] == outside[x] + Owners(Heap(loose[..], kept[..], {}, c), x)
              && c[x] + 1 < MARK_FLAG)
    }

    method AddToChain(chain: int, c: int, ghost s: seq<int>) returns (chain': int)
      requires next.Length == prev.Length && next != prev && Chain(next[..], prev[..], chain, s)
        && 0 <= c < next.Length && c !in s
      modifies next, prev
      ensures Chain(next[..], prev[..], chain', [c] + s)
      ensures forall x :: 0 <= x < next.Length && x !in s && x != c ==>
        next[x] == old(next[x]) && prev[x] == old(prev[x])
    {
      hide Chain;
      ghost var n, p := next[..], prev[..];
      Added(n, p, chain, s, c);
      prev[c] := NULL;
      next[c] := chain;
      if chain != NULL {
        prev[chain] := c;
      }
      chain' := c;
      assert next[..] == n[c := chain] && prev[..] == if chain != NULL then p[c := NULL][chain := c] else p[c := NULL];
    }

    method RemoveFromChain(chain: int, c: int, ghost s: seq<int>, ghost k: int) returns (chain': int)
      requires next.Length == prev.Length && next != prev && Chain(next[..], prev[..], chain, s) && 0 <= k < |s|
        && s[k] == c
      modifies next, prev
      ensures Chain(next[..], prev[..], chain', Without(s, k))
      ensures forall x :: 0 <= x < next.Length && x !in s ==> next[x] == old(next[x]) && prev[x] == old(prev[x])
    {
      hide Chain, Without;
      Removed(next[..], prev[..], chain, s, k);
      ghost var n, p := next[..], prev[..];
      chain' := chain;
      if prev[c] != NULL {
        next[prev[c]] := next[c];
      } else {
        chain' := next[c];
      }
      if next[c] != NULL {
        prev[next[c]] := prev[c];
      }
      next[c] := NULL;
      prev[c] := NULL;
      assert next[..] == Unlink(n, p[c], n[c], c);
      assert prev[..] == Unlink(p, n[c], p[c], c);
    }

    // --- marking

    ghost function MarkedSet(): (m: set<int>)
      reads uiRef
    {
      set x | 0 <= x < uiRef.Length && Marked(x)
    }

    ghost function Unmarked(): set<int>
      reads uiRef
    {
      set x | 0 <= x < uiRef.Length && x !in MarkedSet()
    }

    /** Every object is in one of the two chains; those in the second are marked, and so is everything they
        refer to. */
    ghost predicate Marking()
      reads this, next, prev, uiRef
    {
      && Arrays() && Chain(next[..], prev[..], gcChain, gc) && Chain(next[..], prev[..], markChain, marked)
      && (forall x :: 0 <= x < |graph| ==> (x in gc <==> x !in marked && x !in absent))
      && (forall x :: x in marked ==> x in MarkedSet()) && (forall x :: x in MarkedSet() ==> x !in absent)
      && (forall x :: x in marked ==> AllIn(Children(graph[x]), MarkedSet()))
      && Distinct(order) && gc == Alive(order, Elements(marked))
    }

    /** An object, but not one of `reached`. */
    ghost predicate Dead(reached: set<int>, x: int)
      reads this`graph, this`absent
    {
      0 <= x < |graph| && x !in absent && x !in reached
    }

    /** Objects whose Mark is still running: marked, but in the first chain. */
    ghost predicate Grey(x: int)
      reads this, uiRef
    {
      x in gc && x in MarkedSet()
    }

    method Mark(o: int)
      requires Marking() && 0 <= o < |graph| && o !in absent
      modifies this`gcChain, this`gc, this`markChain, this`marked, next, prev, uiRef
      ensures Marking() && o in MarkedSet() && old(MarkedSet()) <= MarkedSet()
      ensures forall x :: Grey(x) <==> old(Grey(x))
      ensures forall t: set<int> :: o in t && Closed(graph, t) ==> MarkedSet() - old(MarkedSet()) <= t
      decreases Unmarked(), 1
    {
      if uiRef[o] < MARK_FLAG {
        SetFlag(o);
        MarkChildren(o);
        MoveMarked(o);
      }
    }

    method SetFlag(o: int)
      requires Marking() && 0 <= o < |graph| && !Marked(o) && o !in absent
      modifies uiRef
      ensures Marking() && MarkedSet() == old(MarkedSet()) + {o} && Unmarked() == old(Unmarked()) - {o} && o in gc
    {
      hide Chain, Sound;
      uiRef[o] := uiRef[o] + MARK_FLAG;
      MoreMarked(old(MarkedSet()), MarkedSet());
    }

    lemma MoreMarked(m: set<int>, m': set<int>)
      requires m <= m'
      ensures forall c :: AllIn(c, m) ==> AllIn(c, m')
    {
    }

    method MarkChildren(o: int)
      requires Marking() && 0 <= o < |graph| && Grey(o)
      modifies this`gcChain, this`gc, this`markChain, this`marked, next, prev, uiRef
      ensures Marking() && old(MarkedSet()) <= MarkedSet() && AllIn(Children(graph[o]), MarkedSet())
      ensures forall x :: Grey(x) <==> old(Grey(x))
      ensures forall t: set<int> :: o in t && Closed(graph, t) ==> MarkedSet() - old(MarkedSet()) <= t
      decreases Unmarked(), 2
    {
      hide Chain, Closed, Children, Marking, Sound;
      var children := Children(graph[o]);
      References(o);
      ghost var before := MarkedSet();
      var i := 0;
      while i < |children|
        invariant 0 <= i <= |children| && Marking() && before <= MarkedSet() && AllIn(children[..i], MarkedSet())
        invariant forall x :: Grey(x) <==> old(Grey(x))
        invariant forall t: set<int> :: o in t && Closed(graph, t) ==> MarkedSet() - before <= t
        invariant Unmarked() <= old(Unmarked())
      {
        ghost var m := MarkedSet();
        if children[i] != NULL {
          ChildIn(graph, o, i);
          Mark(children[i]);
        }
        AllInSnoc(children, i, m, MarkedSet());
        i := i + 1;
      }
      assert children[..i] == children;
    }

    lemma References(o: int)
      requires Marking() && 0 <= o < |graph| && o in gc
      ensures forall k :: 0 <= k < |Children(graph[o])| ==> NULL <= Children(graph[o])[k] < |graph|
      ensures forall k :: 0 <= k < |Children(graph[o])| && Children(graph[o])[k] != NULL ==>
        Children(graph[o])[k] !in absent
    {
    }

    /** The two chains share nothing. */
    lemma Apart()
      requires Marking()
      ensures forall i :: 0 <= i < |marked| ==> 0 <= marked[i] < next.Length && marked[i] !in gc
      ensures forall i :: 0 <= i < |gc| ==> 0 <= gc[i] < next.Length && gc[i] !in marked
    {
    }

    /** A finished object goes to the other chain. */
    method MoveMarked(o: int)
      requires Marking() && 0 <= o < |graph| && Grey(o) && AllIn(Children(graph[o]), MarkedSet())
      modifies this`gcChain, this`gc, this`markChain, this`marked, next, prev
      ensures Marking() && forall x :: Grey(x) <==> old(Grey(x)) && x != o
    {
      hide Chain, Children, Sound, AllIn, Without, Within, Distinct, Alive, Elements;
      ghost var g, m := gc, marked;
      AliveIn(order, Elements(marked), o);
      ghost var k := AliveLess(order, Elements(marked), o);
      ChainDistinct(next[..], prev[..], gcChain, gc, k);
      Apart();
      MoveLinks(o, k);
      assert forall x :: x in gc <==> x in g && x != o;
      IsWithout(g, k);
      ElementsMore(marked, m, o);
    }

    method MoveLinks(o: int, ghost k: int)
      requires next.Length == prev.Length && next != prev && 0 <= k < |gc| && gc[k] == o
      requires Chain(next[..], prev[..], gcChain, gc) && Chain(next[..], prev[..], markChain, marked)
      requires o !in Without(gc, k) && forall x :: x in gc <==> x == o || x in Without(gc, k)
      requires forall i :: 0 <= i < |marked| ==> 0 <= marked[i] < next.Length && marked[i] !in gc
      requires forall i :: 0 <= i < |gc| ==> 0 <= gc[i] < next.Length && gc[i] !in marked
      modifies this`gcChain, this`gc, this`markChain, this`marked, next, prev
      ensures Chain(next[..], prev[..], gcChain, gc) && Chain(next[..], prev[..], markChain, marked)
      ensures gc == Without(old(gc), k) && forall x :: x in marked <==> x == o || x in old(marked)
    {
      hide Chain, Without;
      ghost var g, m := gc, marked;
      gcChain := RemoveFromChain(gcChain, o, gc, k);
      gc := Without(g, k);
      assert forall i :: 0 <= i < |gc| ==> gc[i] in g;
      ChainApart(old(next[..]), old(prev[..]), next[..], prev[..], markChain, m);
      ghost var n, p := next[..], prev[..];
      markChain := AddToChain(markChain, o, m);
      marked := [o] + m;
      ChainApart(n, p, next[..], prev[..], gcChain, gc);
    }

    ghost predicate Rooted(roots: seq<int>)
      reads this`graph, this`absent
    {
      forall k :: 0 <= k < |roots| ==> NULL <= roots[k] < |graph| && (roots[k] != NULL ==> roots[k] !in absent)
    }

    /** Mark everything the roots reach. */
    method RunMark(roots: seq<int>)
      requires Valid() && Rooted(roots)
      modifies this`gcChain, this`gc, this`markChain, this`marked, this`order, next, prev, uiRef
      ensures Marking() && Reachable(graph, roots, MarkedSet())
      ensures forall x :: 0 <= x < |graph| ==>
        (x in marked <==> x in MarkedSet()) && (x in gc <==> Dead(MarkedSet(), x))
      ensures gc == Alive(old(gc), MarkedSet())
    {
      hide Chain, Children, Sound, Closed, Alive, Elements;
      markChain, marked, order := NULL, [], gc;
      NothingMarked();
      var i := 0;
      while i < |roots|
        invariant 0 <= i <= |roots| && Marking() && AllIn(roots[..i], MarkedSet()) && forall x :: !Grey(x)
        invariant forall t: set<int> :: AllIn(roots, t) && Closed(graph, t) ==> MarkedSet() <= t
        invariant order == old(gc)
      {
        ghost var m := MarkedSet();
        if roots[i] != NULL {
          Mark(roots[i]);
        }
        AllInSnoc(roots, i, m, MarkedSet());
        i := i + 1;
      }
      assert roots[..i] == roots;
      BlackClosed();
      RootsIn(graph, roots, MarkedSet());
      assert Elements(marked) == MarkedSet();
    }

    /** Clear the flag of every object of a chain. */
    method UnMarkChain(chain: int, ghost s: seq<int>)
      requires Arrays() && Chain(next[..], prev[..], chain, s)
      modifies uiRef
      ensures Arrays() && forall x :: 0 <= x < |graph| ==> uiRef[x] == if x in s then counts[x] else old(uiRef[x])
    {
      var t := chain;
      ghost var i := 0;
      while t != NULL
        invariant 0 <= i <= |s| && t == (if i < |s| then s[i] else NULL) && Arrays()
        invariant forall x :: 0 <= x < |graph| ==> uiRef[x] == if x in s[..i] then counts[x] else old(uiRef[x])
        decreases |s| - i
      {
        assert s[i] !in s[..i];
        UnMark(t);
        t := next[t];
        i := i + 1;
      }
      assert s[..i] == s;
    }

    method UnMark(c: int)
      requires Arrays() && 0 <= c < |graph|
      modifies uiRef
      ensures Arrays() && uiRef[c] == counts[c] && forall x :: 0 <= x < |graph| && x != c ==> uiRef[x] == old(uiRef[x])
    {
      if uiRef[c] >= MARK_FLAG {
        uiRef[c] := uiRef[c] - MARK_FLAG;
      }
    }

    // --- sweeping

    ghost function Now(): Heap
      requires Owning()
      reads this, loose, kept
    {
      Heap(loose[..], kept[..], freed, counts)
    }

    /** The marked objects are in the second chain; the others, as far as they are not released, in the first.
        `pending` are the references given up by their owner and not yet subtracted, or taken by the sweep. */
    ghost predicate Sweeping(pending: multiset<int>, all: seq<int>)
      reads this, next, prev, uiRef, loose, kept
    {
      && Arrays() && Owning() && |outside| == |graph|
      && Parted(all) && Balanced(Now(), outside, pending)
    }

    ghost predicate Parted(all: seq<int>)
      reads this, next, prev, uiRef
    {
      && next.Length == prev.Length == uiRef.Length == |graph|
      && Chain(next[..], prev[..], gcChain, gc) && Chain(next[..], prev[..], markChain, marked)
      && Distinct(all) && Within(all, |graph|) && gc == Alive(all, freed) && (forall x :: x in freed ==> x in all)
      && (forall x :: 0 <= x < |graph| ==> (x in all <==> !Marked(x) && x !in absent) && (x in marked <==> Marked(x)))
      && (forall x :: x in absent ==> 0 <= x < |graph| && !Marked(x) && (x < |counts| ==> counts[x] == 0))
      && (forall x :: x in all ==> Shut(graph[x]))
    }

    /** One reference less; an object without any is released. */
    method Subtract(x: int, ghost pending: multiset<int>, ghost all: seq<int>)
      requires Sweeping(pending, all) && pending[x] > 0
      modifies this`gcChain, this`gc, this`counts, this`freed, next, prev, uiRef, loose, kept
      ensures Sweeping(pending - multiset{x}, all) && Progress(all, old(Now()), Now())
      ensures Weight(Now(), pending - multiset{x}) < old(Weight(Now(), pending))
      decreases Weight(Now(), pending), 0
    {
      hide Chain, Sound, Alive, Balanced, Progress, Parted, Weight;
      ghost var h := Now();
      Subtracted(h, outside, pending, x);
      Present(x, all);
      LowerCount(x, all);
      ghost var lower := Now();
      if uiRef[x] == 0 {
        ReachesZero(x, all);
        Release(x, pending - multiset{x}, all);
      } else {
        StaysPositive(x, all);
        Stays(all, lower);
      }
      LowerProgress(all, h, x, Now());
    }

    method LowerCount(x: int, ghost all: seq<int>)
      requires Arrays() && Parted(all) && 0 <= x < |graph| && counts[x] > 0
      modifies this`counts, uiRef
      ensures Arrays() && Parted(all) && counts == old(counts)[x := old(counts)[x] - 1]
    {
      hide Chain, Sound, Alive;
      ghost var u := uiRef[..];
      uiRef[x] := uiRef[x] - 1;
      counts := counts[x := counts[x] - 1];
      assert forall y :: 0 <= y < |graph| ==> (Marked(y) <==> u[y] >= MARK_FLAG);
    }

    method RaiseCount(x: int, ghost all: seq<int>)
      requires Arrays() && Parted(all) && 0 <= x < |graph| && counts[x] + 1 < MARK_FLAG && x !in absent
      modifies this`counts, uiRef
      ensures Arrays() && Parted(all) && counts == old(counts)[x := old(counts)[x] + 1]
    {
      hide Chain, Sound, Alive;
      ghost var u := uiRef[..];
      uiRef[x] := uiRef[x] + 1;
      counts := counts[x := counts[x] + 1];
      assert forall y :: 0 <= y < |graph| ==> (Marked(y) <==> u[y] >= MARK_FLAG);
    }

    lemma Present(x: int, all: seq<int>)
      requires Parted(all) && 0 <= x < |counts| && counts[x] > 0
      ensures x !in absent
    {
      hide Chain, Alive;
    }

    lemma InAll(x: int, all: seq<int>)
      requires Parted(all) && x in all
      ensures x !in absent
    {
      hide Chain, Alive;
      var i :| 0 <= i < |all| && all[i] == x;
    }

    /** The mark keeps every marked object's word above zero. */
    lemma ReachesZero(x: int, all: seq<int>)
      requires Arrays() && Parted(all) && 0 <= x < |graph| && uiRef[x] == 0 && x !in absent
      ensures counts[x] == 0 && x in all
    {
      hide Chain, Sound, Alive;
    }

    lemma StaysPositive(x: int, all: seq<int>)
      requires Arrays() && Parted(all) && 0 <= x < |graph| && uiRef[x] != 0
      ensures x in all ==> counts[x] > 0
    {
      hide Chain, Sound, Alive;
    }

    /** The destructor: out of the chain, and every reference given up. */
    method Release(x: int, ghost pending: multiset<int>, ghost all: seq<int>)
      requires Sweeping(pending, all) && 0 <= x < |graph| && x in all && counts[x] == 0 && x !in freed
      modifies this`gcChain, this`gc, this`counts, this`freed, next, prev, uiRef, loose, kept
      ensures Sweeping(pending, all) && x in freed && Progress(all, old(Now()), Now())
      ensures Weight(Now(), pending) <= old(Weight(Now(), pending))
      decreases Weight(Now(), pending), 2
    {
      hide Chain, Sound, Alive, Balanced, Progress, Parted, Weight, Within, Distinct;
      ghost var h := Now();
      var list := loose[x] + kept[x];
      Released(h, outside, pending, x, all);
      Leave(x, all);
      loose[x], kept[x] := [], [];
      assert Now() == Emptied(h, x);
      DropAll(list, pending, all);
      Onward(all, h, Emptied(h, x), Now());
      Grown(all, Emptied(h, x), Now());
    }

    method Leave(x: int, ghost all: seq<int>)
      requires Arrays() && Parted(all) && 0 <= x < |graph| && x in all && x !in freed
      modifies this`gcChain, this`gc, this`freed, next, prev
      ensures Arrays() && Parted(all) && freed == old(freed) + {x}
    {
      hide Chain, Sound, Alive, Without;
      ghost var k := AliveLess(all, freed, x);
      ghost var g := gc;
      ghost var n, p := next[..], prev[..];
      MarkedApart(all);
      gcChain := RemoveFromChain(gcChain, x, gc, k);
      gc, freed := Without(g, k), freed + {x};
      IsWithout(g, k);
      ChainApart(n, p, next[..], prev[..], markChain, marked);
    }

    lemma MarkedApart(all: seq<int>)
      requires Parted(all)
      ensures forall i :: 0 <= i < |marked| ==> 0 <= marked[i] < next.Length && marked[i] !in gc
    {
      hide Alive;
      forall i | 0 <= i < |marked| ensures 0 <= marked[i] < next.Length && marked[i] !in gc {
        assert marked[i] in marked;
        AliveIn(all, freed, marked[i]);
      }
    }

    /** References given up one after the other. */
    method DropAll(list: seq<int>, ghost pending: multiset<int>, ghost all: seq<int>)
      requires Sweeping(pending + multiset(list), all)
      modifies this`gcChain, this`gc, this`counts, this`freed, next, prev, uiRef, loose, kept
      ensures Sweeping(pending, all) && Progress(all, old(Now()), Now())
      ensures Weight(Now(), pending) <= old(Weight(Now(), pending + multiset(list)))
      decreases Weight(Now(), pending + multiset(list)), 1
    {
      hide Chain, Sound, Alive, Balanced, Progress, Parted, Weight;
      Stays(all, Now());
      var i := 0;
      assert list[0..] == list;
      while i < |list|
        invariant 0 <= i <= |list| && Sweeping(pending + multiset(list[i..]), all) && Progress(all, old(Now()), Now())
        invariant Weight(Now(), pending + multiset(list[i..])) <= old(Weight(Now(), pending + multiset(list)))
      {
        ghost var h := Now();
        ghost var left := pending + multiset(list[i..]);
        assert list[i..] == [list[i]] + list[i + 1..];
        assert left - multiset{list[i]} == pending + multiset(list[i + 1..]);
        Subtract(list[i], left, all);
        Onward(all, old(Now()), h, Now());
        i := i + 1;
      }
      assert list[i..] == [];
      assert pending + multiset(list[i..]) == pending;
    }

    /** What an object refers to is given up, but for what it keeps until it is released. */
    method Finalize(x: int, ghost pending: multiset<int>, ghost all: seq<int>)
      requires Sweeping(pending, all) && 0 <= x < |graph|
      modifies this`gcChain, this`gc, this`counts, this`freed, next, prev, uiRef, loose, kept
      ensures Sweeping(pending, all) && Progress(all, Loosened(old(Now()), x), Now())
    {
      hide Chain, Sound, Alive, Balanced, Progress, Parted, Weight;
      ghost var h := Now();
      var list := loose[x];
      Finalized(h, outside, pending, x);
      loose[x] := [];
      assert Now() == Loosened(h, x);
      DropAll(list, pending, all);
    }

    method Hold(x: int, ghost pending: multiset<int>, ghost all: seq<int>)
      requires Sweeping(pending, all) && 0 <= x < |graph| && pending[x] == 0 && x !in freed && x in all
      modifies this`counts, uiRef
      ensures Sweeping(pending + multiset{x}, all) && Now() == HeldOnce(old(Now()), x)
    {
      hide Chain, Sound, Alive, Balanced, Parted;
      HeldBalance(Now(), outside, pending, x);
      InAll(x, all);
      RaiseCount(x, all);
    }

    /** The next object of the chain is the next one of `all` that is left. */
    lemma Follow(all: seq<int>, i: int) returns (j: int)
      requires Parted(all) && 0 <= i < |all| && all[i] !in freed
      ensures i < j <= |all| && (forall m :: i < m < j ==> all[m] in freed)
      ensures 0 <= all[i] < next.Length
      ensures if j < |all| then next[all[i]] == all[j] && all[j] !in freed else next[all[i]] == NULL
    {
      hide Alive;
      var at;
      j, at := AliveNext(all, freed, i);
    }

    lemma First(all: seq<int>)
      requires Parted(all) && freed == {}
      ensures if all == [] then gcChain == NULL else gcChain == all[0] && 0 <= all[0] < |graph|
    {
      AliveAll(all);
    }

    /** Every unmarked object is finalized, unless it was released before its turn; each is held while it is,
        and so is the one after it until its own turn. */
    method Sweep(ghost all: seq<int>) returns (n: int, ghost turns: seq<int>)
      requires Sweeping(multiset{}, all) && freed == {}
      modifies this`gcChain, this`gc, this`counts, this`freed, next, prev, uiRef, loose, kept
      ensures Sweeping(multiset{}, all) && Swept(all, |all|, old(Now()), Now())
      ensures n == |turns| && Taken(all, |all|, turns, freed) && (all != [] ==> turns != [])
      ensures Reasons(old(Now()), outside, all, turns)
      ensures AllAnchored(old(Now()), outside, all) ==> turns == all
    {
      hide Chain, Sound, Alive, Balanced, Progress, Parted, Swept, Untaken, Reasons, Reason, AllAnchored, Spared, Taken;
      n, turns := 0, [];
      var t := gcChain;
      First(all);
      FreedIn(all);
      SweptNone(all, Now());
      UntakenNone(all, Now());
      NoTurns(old(Now()), outside, all);
      ghost var i := 0;
      if t != NULL {
        FirstReason(Now(), outside, all);
        Hold(t, multiset{}, all);
        SweptHold(all, 0, old(Now()), old(Now()), t);
        UntakenHold(all, 0, old(Now()), old(Now()), t);
        assert multiset{} + multiset{t} == multiset{t};
      }
      assert all[..0] == [];
      while t != NULL
        invariant 0 <= i <= |all| && n == |turns| && Taken(all, i, turns, freed)
          && (turns == [] && t == NULL ==> all == [])
        invariant if t == NULL then i == |all| else i < |all| && all[i] == t && 0 <= t < |graph|
        invariant Sweeping(if t == NULL then multiset{} else multiset{t}, all) && Swept(all, i, old(Now()), Now())
        invariant Untaken(all, i, old(Now()), Now()) && Reasons(old(Now()), outside, all, turns)
        invariant t != NULL ==> Reason(old(Now()), outside, all, i)
        invariant AllAnchored(old(Now()), outside, all) ==> Spared(all, i, freed) && turns == all[..i]
        decreases |all| - i
      {
        ghost var at, did := i, freed;
        FreedIn(all);
        t, i := Turn(t, all, i, old(Now()));
        TookTurn(all, at, i, turns, did, freed);
        MoreReasons(old(Now()), outside, all, turns, at);
        assert all[..at] + [all[at]] == all[..at + 1];
        turns := turns + [all[at]];
        n := n + 1;
      }
      assert all[..|all|] == all;
    }

    /** One round of the sweep. */
    method Turn(t: int, ghost all: seq<int>, ghost i: int, ghost h0: Heap) returns (nx: int, ghost j: int)
      requires 0 <= t < |graph| && 0 <= i < |all| && all[i] == t
      requires Sweeping(multiset{t}, all) && Swept(all, i, h0, Now()) && Untaken(all, i, h0, Now())
      modifies this`gcChain, this`gc, this`counts, this`freed, next, prev, uiRef, loose, kept
      ensures i < j <= |all| && if nx == NULL then j == |all| else j < |all| && all[j] == nx && 0 <= nx < |graph|
      ensures Sweeping(if nx == NULL then multiset{} else multiset{nx}, all) && Swept(all, j, h0, Now())
      ensures old(freed) <= freed && forall m :: i < m < j ==> all[m] in freed
      ensures Untaken(all, j, h0, Now()) && (nx != NULL ==> Reason(h0, outside, all, j))
      ensures AllAnchored(h0, outside, all) && Spared(all, i, old(freed)) ==> j == i + 1 && Spared(all, j, freed)
    {
      hide Chain, Sound, Alive, Balanced, Progress, Parted, Swept, Distinct, Untaken, Reason, AllAnchored, Spared;
      nx, j := FinishOne(t, all, i, h0);
      PassOn(t, nx, all, i, j, h0);
    }

    /** Finalize an object, and find the next one. */
    method FinishOne(t: int, ghost all: seq<int>, ghost i: int, ghost h0: Heap) returns (nx: int, ghost j: int)
      requires 0 <= t < |graph| && 0 <= i < |all| && all[i] == t
      requires Sweeping(multiset{t}, all) && Swept(all, i, h0, Now()) && Untaken(all, i, h0, Now())
      modifies this`gcChain, this`gc, this`counts, this`freed, next, prev, uiRef, loose, kept
      ensures Sweeping(multiset{t}, all) && Swept(all, i, h0, Now()) && loose[t] == [] && t !in freed
      ensures i < j <= |all| && if nx == NULL then j == |all| else j < |all| && all[j] == nx && 0 <= nx < |graph|
      ensures nx != NULL ==> nx != t && nx !in freed && Reason(h0, outside, all, j)
      ensures old(freed) <= freed && forall m :: i < m < j ==> all[m] in freed
      ensures Untaken(all, i + 1, h0, Now())
      ensures AllAnchored(h0, outside, all) && Spared(all, i, old(freed)) ==> j == i + 1 && Spared(all, j, freed)
    {
      hide Chain, Sound, Alive, Balanced, Progress, Parted, Swept, Distinct, Untaken, Reason, AllAnchored, Spared;
      ghost var h := Now();
      FreedIn(all);
      Finalize(t, multiset{t}, all);
      FreedIn(all);
      SweptFinalize(all, i, h0, h, t, Now());
      StillHeld(Now(), outside, multiset{t}, t);
      Grown(all, Loosened(h, t), Now());
      UntakenLoosened(all, i, h0, h);
      UntakenProgress(all, i + 1, h0, Loosened(h, t), Now());
      if Spared(all, i, h.freed) {
        SparedOn(all, i, h.freed);
      }
      AllSpared(all, i, h0, Loosened(h, t), Now(), outside, multiset{t});
      j := Follow(all, i);
      nx := next[t];
      Later(all, i, j);
      if Spared(all, i + 1, freed) {
        SparedNext(all, i, j, freed);
      }
      if nx != NULL {
        NextReason(all, i, j, h0, Now(), outside);
      }
    }

    /** Hold the next object, and let go of the one whose turn it was. */
    method PassOn(t: int, nx: int, ghost all: seq<int>, ghost i: int, ghost j: int, ghost h0: Heap)
      requires 0 <= t < |graph| && 0 <= i < j <= |all| && all[i] == t
      requires Sweeping(multiset{t}, all) && Swept(all, i, h0, Now()) && loose[t] == [] && t !in freed
      requires if nx == NULL then j == |all| else j < |all| && all[j] == nx && 0 <= nx < |graph|
      requires nx != NULL ==> nx != t && nx !in freed
      requires Untaken(all, i + 1, h0, Now())
      requires forall m :: i < m < j ==> all[m] in freed
      modifies this`gcChain, this`gc, this`counts, this`freed, next, prev, uiRef, loose, kept
      ensures Sweeping(if nx == NULL then multiset{} else multiset{nx}, all) && Swept(all, j, h0, Now())
      ensures old(freed) <= freed && Untaken(all, j, h0, Now())
      ensures AllAnchored(h0, outside, all) && Spared(all, i + 1, old(freed)) ==> Spared(all, i + 1, freed)
    {
      hide Chain, Sound, Alive, Balanced, Progress, Parted, Swept, Distinct, Untaken, AllAnchored, Spared;
      ghost var h1 := Now();
      ghost var pending := multiset{t};
      if nx != NULL {
        Hold(nx, pending, all);
        SweptHold(all, i, h0, h1, nx);
        UntakenHold(all, i + 1, h0, h1, nx);
        pending := pending + multiset{nx};
        assert pending - multiset{t} == multiset{nx};
      }
      ghost var h2 := Now();
      HeldCount(h2, outside, pending, t);
      Subtract(t, pending, all);
      assert pending - multiset{t} == if nx == NULL then multiset{} else multiset{nx};
      FreedIn(all);
      Grown(all, h2, Now());
      SweptProgress(all, i, h0, h2, Now());
      UntakenProgress(all, i + 1, h0, h2, Now());
      UntakenLater(all, i + 1, j, h0, Now());
      AllSpared(all, i, h0, h2, Now(), outside, pending - multiset{t});
      SweptTurn(all, i, j, h0, h2, Now(), outside, pending - multiset{t});
    }

    lemma FreedIn(all: seq<int>)
      requires Parted(all)
      ensures (forall x :: x in freed ==> x in all) && Within(all, |graph|) && Distinct(all)
    {
      hide Chain, Alive;
    }

    lemma Later(all: seq<int>, i: int, j: int)
      requires Parted(all) && 0 <= i < j <= |all|
      ensures j < |all| ==> all[i] != all[j] && 0 <= all[j] < |graph|
    {
      hide Chain, Alive;
    }

    /** No thread that the roots do not reach has captured variables still on its stack. */
    ghost predicate Detached(roots: seq<int>)
      reads this`graph
    {
      forall s: set<int>, x :: Reachable(graph, roots, s) && 0 <= x < |graph| && x !in s ==> Shut(graph[x])
    }

    /** Every object that the roots do not reach gives up its references, and is released exactly if nothing
        refers to it any more. The others keep theirs, are unmarked, in a well-formed chain, and their reference
        counts are less by the references given up. */
    method CollectGarbage(roots: seq<int>) returns (n: int, ghost reached: set<int>, ghost turns: seq<int>)
      requires Valid() && Counted() && Rooted(roots) && Detached(roots)
      modifies this`gcChain, this`gc, this`markChain, this`marked, this`order, this`counts, this`freed, next, prev,
        uiRef, loose, kept
      ensures Reachable(graph, roots, reached) && Arrays() && Owning() && Chain(next[..], prev[..], gcChain, gc)
      ensures forall x :: 0 <= x < |graph| ==> (x in gc <==> x in reached) && uiRef[x] == counts[x]
      ensures forall x :: x in absent && 0 <= x < |counts| ==> counts[x] == 0
      ensures forall x :: x in reached ==> 0 <= x < |graph| && x !in absent
      ensures Collected(outside, reached, absent, old(Now()), Now()) && Balanced(Now(), outside, multiset{})
      ensures n == |turns| && Distinct(turns) && (forall x :: x in turns ==> Dead(reached, x))
      ensures n == |graph| - |absent| - |reached| - |Early(reached, turns)| && Early(reached, turns) <= freed
      ensures n > 0 <==> AnyDead(reached)
      ensures var dead := Alive(old(gc), reached);
        Reasons(old(Now()), outside, dead, turns) && CountsAll(old(Now()), outside, dead, Early(reached, turns))
    {
      hide Chain, Children, Sound, Closed, AllIn, Reachable, Balanced, Swept, Parted, Alive, Collected, Counted,
        Marking, Distinct, Within, Reasons, AllAnchored, CountsAll, Rooted, Detached, Shut;
      reached := MarkFrom(roots);
      n, turns := SweepRest(reached);
    }

    ghost predicate AnyDead(reached: set<int>)
      reads this`graph, this`absent
    {
      exists x :: Dead(reached, x)
    }

    /** Marking, and what it says of each object. */
    method MarkFrom(roots: seq<int>) returns (ghost reached: set<int>)
      requires Valid() && Counted() && Rooted(roots) && Detached(roots)
      modifies this`gcChain, this`gc, this`markChain, this`marked, this`order, next, prev, uiRef
      ensures Marking() && Counted() && reached == MarkedSet() && Reachable(graph, roots, reached) && Distinct(gc)
      ensures forall x :: 0 <= x < |graph| ==> (x in marked <==> x in reached) && (x in gc <==> Dead(reached, x))
      ensures forall x :: Dead(reached, x) ==> Shut(graph[x])
      ensures forall x :: x in reached ==> 0 <= x < |graph| && x !in absent
      ensures |gc| == |graph| - |absent| - |reached| && (gc != [] <==> AnyDead(reached))
      ensures gc == Alive(old(gc), reached)
    {
      hide Chain, Children, Sound, Closed, AllIn, Reachable, Counted, Marking, Distinct, Within;
      RunMark(roots);
      reached := MarkedSet();
      DeadShut(roots, reached);
      Sizes(reached);
      Members(reached);
    }

    method SweepRest(ghost reached: set<int>) returns (n: int, ghost turns: seq<int>)
      requires Marking() && Counted() && reached == MarkedSet() && Distinct(gc)
      requires forall x :: 0 <= x < |graph| ==> (x in marked <==> x in reached) && (x in gc <==> Dead(reached, x))
      requires forall x :: Dead(reached, x) ==> Shut(graph[x])
      modifies this`gcChain, this`gc, this`counts, this`freed, next, prev, uiRef, loose, kept
      ensures Arrays() && Owning() && Chain(next[..], prev[..], gcChain, gc)
      ensures forall x :: 0 <= x < |graph| ==> (x in gc <==> x in reached) && uiRef[x] == counts[x]
      ensures forall x :: x in absent && 0 <= x < |counts| ==> counts[x] == 0
      ensures Collected(outside, reached, absent, old(Now()), Now()) && Balanced(Now(), outside, multiset{})
      ensures n == |turns| == |old(gc)| - |Early(reached, turns)| && Early(reached, turns) <= freed
      ensures Distinct(turns) && (forall x :: x in turns ==> Dead(reached, x))
      ensures old(gc) == [] <==> n == 0
      ensures Reasons(old(Now()), outside, old(gc), turns)
      ensures CountsAll(old(Now()), outside, old(gc), Early(reached, turns))
    {
      hide Chain, Children, Sound, AllIn, Balanced, Collected, Counted, Marking, Distinct, Reasons, AllAnchored,
        CountsAll;
      n, turns := FinalizeAll(reached);
      UnMarkChain(markChain, marked);
      gcChain, gc := markChain, marked;
    }

    /** What was not reached has no references from elsewhere. */
    ghost predicate Unheld(roots: seq<int>)
      reads this`graph, this`absent, this`outside
    {
      |outside| == |graph| && forall s: set<int>, x :: Reachable(graph, roots, s) && Dead(s, x) ==> outside[x] == 0
    }

    /** References kept until release never lead round in a circle. */
    ghost predicate Ranked(rank: seq<nat>)
      reads this`graph
    {
      |rank| == |graph| && forall y, z :: 0 <= y < |graph| && 0 <= z < |graph| && z in Kept(graph[y]) ==>
        rank[y] < rank[z]
    }

    /** If nothing outside the roots refers to what they do not reach, all of that is released, and the heap is
        as it was before with the rest. */
    method Collect(roots: seq<int>, ghost rank: seq<nat>) returns (n: int, ghost reached: set<int>)
      requires Valid() && Counted() && Rooted(roots) && Detached(roots) && Unheld(roots) && Ranked(rank)
      modifies this`gcChain, this`gc, this`markChain, this`marked, this`order, this`counts, this`freed, this`absent,
        next, prev, uiRef, loose, kept
      ensures Valid() && Counted() && Reachable(graph, roots, reached)
      ensures n >= 0 && (n > 0 <==> old(AnyDead(reached)))
      ensures forall x :: x in absent <==> x in old(absent) || old(Dead(reached, x))
      ensures forall x :: x in reached ==> 0 <= x < |graph| && x !in absent
    {
      hide Chain, Sound, Balanced, Collected, Reachable, Detached, Rooted, Unheld, Ranked, Owning, Listing, Reasons,
        AllAnchored, CountsAll, Alive, Shut, Counted;
      ghost var h := Before();
      ghost var turns;
      n, reached, turns := CollectGarbage(roots);
      AllFreed(h, roots, reached, rank);
      Settle(h, reached);
    }

    /** A collection right after another finds nothing. */
    method CollectTwice(roots: seq<int>, ghost rank: seq<nat>) returns (n: int, again: int)
      requires Valid() && Counted() && Rooted(roots) && Detached(roots) && Unheld(roots) && Ranked(rank)
      modifies this`gcChain, this`gc, this`markChain, this`marked, this`order, this`counts, this`freed, this`absent,
        next, prev, uiRef, loose, kept
      ensures Valid() && Counted() && again == 0
    {
      hide Valid, Counted, Reachable, Closed, Shut, Kept;
      ghost var reached, same;
      n, reached := Collect(roots, rank);
      StillRooted(roots, reached);
      again, same := Collect(roots, rank);
      ReachableUnique(graph, roots, reached, same);
    }

    lemma StillRooted(roots: seq<int>, reached: set<int>)
      requires Reachable(graph, roots, reached) && forall x :: x in reached ==> 0 <= x < |graph| && x !in absent
      requires forall k :: 0 <= k < |roots| ==> NULL <= roots[k] < |graph|
      ensures Rooted(roots)
    {
      forall k | 0 <= k < |roots| && roots[k] != NULL ensures roots[k] !in absent {
        assert roots[k] in roots;
      }
    }

    lemma Before() returns (h: Heap)
      requires Counted()
      ensures Owning() && h == Now() && Listing(h)
    {
      hide Total, Strong, Loose, Kept;
      h := Now();
    }

    lemma Members(reached: set<int>)
      requires Marking() && reached == MarkedSet()
      ensures forall x :: x in reached ==> 0 <= x < |graph| && x !in absent
    {
      hide Chain, Sound, AllIn;
    }

    ghost predicate Listing(h: Heap)
      reads this`graph, this`absent
    {
      && |h.loose| == |h.kept| == |graph|
      && forall x :: 0 <= x < |graph| && x !in absent ==>
        h.loose[x] == Strong(Loose(graph[x])) && h.kept[x] == Strong(Kept(graph[x]))
    }

    lemma AllFreed(h: Heap, roots: seq<int>, reached: set<int>, rank: seq<nat>)
      requires Owning() && Reachable(graph, roots, reached) && Collected(outside, reached, absent, h, Now())
      requires Listing(h) && Unheld(roots) && Ranked(rank) && Sound(graph, absent)
      requires forall x :: x in reached ==> 0 <= x < |graph| && x !in absent
      ensures forall x :: Dead(reached, x) <==> x in freed
      ensures Sound(graph, absent + freed)
    {
      hide Sound, Total, Strong, Loose, Kept;
      forall x | Dead(reached, x) ensures x in freed {
        AllReleased(graph, outside, reached, absent, h, Now(), rank, x);
      }
      FewerSound(graph, absent, reached, freed);
    }

    /** The released objects are no objects any more. */
    ghost method Settle(h: Heap, reached: set<int>)
      requires Arrays() && Owning() && Chain(next[..], prev[..], gcChain, gc) && Balanced(Now(), outside, multiset{})
      requires forall x :: 0 <= x < |graph| ==> (x in gc <==> x in reached) && uiRef[x] == counts[x]
      requires forall x :: x in reached ==> 0 <= x < |graph| && x !in absent
      requires Collected(outside, reached, absent, h, Now()) && Listing(h)
      requires forall x :: Dead(reached, x) <==> x in freed
      requires Sound(graph, absent + freed)
      requires forall x :: x in absent && 0 <= x < |counts| ==> counts[x] == 0
      modifies this`freed, this`absent
      ensures Valid() && Counted() && absent == old(absent) + old(freed)
    {
      hide Chain, Sound, Total, Strong, Loose, Kept;
      absent, freed := absent + freed, {};
    }

    /** The part after marking. */
    method FinalizeAll(ghost reached: set<int>) returns (n: int, ghost turns: seq<int>)
      requires Marking() && Counted() && reached == MarkedSet() && Distinct(gc)
      requires forall x :: 0 <= x < |graph| ==> (x in marked <==> x in reached) && (x in gc <==> Dead(reached, x))
      requires forall x :: Dead(reached, x) ==> Shut(graph[x])
      modifies this`gcChain, this`gc, this`counts, this`freed, next, prev, uiRef, loose, kept
      ensures Arrays() && Owning() && Chain(next[..], prev[..], markChain, marked)
      ensures forall x :: 0 <= x < |graph| ==> (x in marked <==> x in reached) && (x in marked || uiRef[x] == counts[x])
      ensures forall x :: x in absent && 0 <= x < |counts| ==> counts[x] == 0
      ensures Collected(outside, reached, absent, old(Now()), Now()) && Balanced(Now(), outside, multiset{})
      ensures n == |turns| == |old(gc)| - |Early(reached, turns)| && Early(reached, turns) <= freed
      ensures Distinct(turns) && (forall x :: x in turns ==> Dead(reached, x))
      ensures old(gc) == [] <==> n == 0
      ensures Reasons(old(Now()), outside, old(gc), turns)
      ensures CountsAll(old(Now()), outside, old(gc), Early(reached, turns))
    {
      hide Chain, Children, Sound, AllIn, Balanced, Swept, Parted, Alive, Collected, Counted, Marking, Distinct, Within,
        Reasons, AllAnchored, CountsAll, Dead;
      ghost var all := gc;
      Starts(all);
      n, turns := Sweep(all);
      AllCounted(old(Now()), all, reached, turns);
      Counting(all, reached, turns);
      Ends(all, old(Now()), reached);
    }

    /** The objects out of reach that were released before their turn. */
    ghost function Early(reached: set<int>, turns: seq<int>): set<int>
      reads this`graph, this`absent
    {
      set x | 0 <= x < |graph| && Dead(reached, x) && x !in turns
    }

    lemma Counting(all: seq<int>, reached: set<int>, turns: seq<int>)
      requires Taken(all, |all|, turns, freed) && Distinct(all) && (forall x :: x in all <==> Dead(reached, x))
      ensures |turns| == |all| - |Early(reached, turns)| && Early(reached, turns) <= freed
      ensures Distinct(turns) && forall x :: x in turns ==> Dead(reached, x)
    {
      assert all[..|all|] == all;
      SeqCard(all);
      SeqCard(turns);
      assert forall k :: 0 <= k < |turns| ==> turns[k] in all;
      assert Early(reached, turns) == Elements(all) - Elements(turns);
      assert Elements(turns) <= Elements(all);
    }

    lemma AllCounted(h: Heap, all: seq<int>, reached: set<int>, turns: seq<int>)
      requires forall x :: x in all <==> Dead(reached, x)
      requires Reasons(h, outside, all, turns) && (AllAnchored(h, outside, all) ==> turns == all)
      ensures CountsAll(h, outside, all, Early(reached, turns))
    {
      hide Anchored, KeptEarlier;
      if Early(reached, turns) == {} && Unkept(h, all) {
        forall j | 0 <= j < |all| ensures Anchored(h, outside, all, j) {
          assert Dead(reached, all[j]);
          assert all[j] !in Early(reached, turns);
          assert Reason(h, outside, all, j);
        }
      }
    }

    lemma Sizes(reached: set<int>)
      requires Marking() && reached == MarkedSet()
      requires forall x :: 0 <= x < |graph| ==> (x in marked <==> x in reached) && (x in gc <==> Dead(reached, x))
      ensures |gc| == |graph| - |absent| - |reached| && |marked| == |reached| && Distinct(gc)
      ensures gc != [] <==> exists x :: Dead(reached, x)
    {
      hide Chain, Children, Sound, AllIn, Distinct, Within;
      ChainParts(next[..], prev[..], gcChain, gc);
      ChainParts(next[..], prev[..], markChain, marked);
      Cardinality3(gc, marked, absent, |graph|);
      CardinalityOf(marked, reached);
      if gc != [] {
        assert gc[0] in gc && Within(gc, |graph|);
      }
    }

    lemma DeadShut(roots: seq<int>, reached: set<int>)
      requires Detached(roots) && Reachable(graph, roots, reached)
      ensures forall x :: Dead(reached, x) ==> Shut(graph[x])
    {
      hide Reachable, Shut;
    }

    /** After marking: the sweep can begin. */
    lemma Starts(all: seq<int>)
      requires Marking() && Counted() && all == gc
      ensures Balanced(Now(), outside, multiset{}) && |counts| == |graph| && freed == {} && Owning()
      requires forall x :: 0 <= x < |graph| ==>
        (x in marked <==> x in MarkedSet()) && (x in gc <==> Dead(MarkedSet(), x))
      requires forall x :: Dead(MarkedSet(), x) ==> Shut(graph[x])
      ensures Sweeping(multiset{}, all) && Within(gc, |graph|) && Within(marked, |graph|) && Distinct(gc)
        && Distinct(marked)
      ensures forall x :: x in marked <==> x in MarkedSet()
      ensures forall x :: x in all <==> Dead(MarkedSet(), x)
      ensures forall x :: x in MarkedSet() ==> x !in absent
      ensures forall x :: x in absent && 0 <= x < |loose[..]| == |kept[..]| ==> loose[..][x] == [] && kept[..][x] == []
    {
      hide Children, Total, AllIn, Alive;
      AliveAll(all);
      InRange();
      assert forall x :: 0 <= x < |graph| ==> (Marked(x) <==> x in MarkedSet());
      assert Now() == Heap(loose[..], kept[..], {}, counts);
    }

    lemma InRange()
      requires Sound(graph, absent) && Counted()
      ensures forall x :: 0 <= x < |graph| ==> Within(loose[x], |graph|) && Within(kept[x], |graph|)
    {
      hide Children, Loose, Kept, Strong, Total;
      forall x | 0 <= x < |graph| && x !in absent ensures Within(loose[x], |graph|) && Within(kept[x], |graph|) {
        Parts(graph[x]);
        forall i | 0 <= i < |loose[x]| ensures 0 <= loose[x][i] < |graph| {
          assert loose[x][i] in Strong(Loose(graph[x]));
          assert loose[x][i] in Children(graph[x]);
        }
        forall i | 0 <= i < |kept[x]| ensures 0 <= kept[x][i] < |graph| {
          assert kept[x][i] in Strong(Kept(graph[x]));
          assert kept[x][i] in Children(graph[x]);
        }
      }
    }

    /** The marked chain is what is left. */
    lemma Ends(all: seq<int>, h0: Heap, reached: set<int>)
      requires Sweeping(multiset{}, all) && Swept(all, |all|, h0, Now())
      requires forall x :: 0 <= x < |graph| ==> (x in all <==> Dead(reached, x))
      requires forall x :: x in reached ==> x !in absent
      requires forall x :: x in absent && 0 <= x < |h0.loose| == |h0.kept| ==> h0.loose[x] == [] && h0.kept[x] == []
      requires |h0.counts| == |graph| && h0.freed == {} && Balanced(h0, outside, multiset{})
      ensures Arrays() && Collected(outside, reached, absent, h0, Now()) && Chain(next[..], prev[..], markChain, marked)
      ensures forall x :: 0 <= x < |graph| ==> (x in marked <==> x in reached) && (x in marked || uiRef[x] == counts[x])
      ensures forall x :: x in absent && 0 <= x < |counts| ==> counts[x] == 0
    {
      hide Chain, Total, Alive, Sound;
      assert forall x :: x in all ==> Dead(reached, x);
      forall x | 0 <= x < |graph| && x in all ensures loose[x] == [] && (counts[x] == 0 ==> x in freed) {
        var j :| 0 <= j < |all| && all[j] == x;
      }
    }

    /** Every count can be raised by the sweep and by one more reference. */
    ghost predicate Spare()
      reads this`counts
    {
      forall x :: 0 <= x < |counts| ==> counts[x] + 2 < MARK_FLAG
    }

    /** The unreachable objects are counted, and kept by a new array that the caller gets: it refers to all of
        them but prototypes and outers, and is itself in the chain, behind them. */
    method ResurrectUnreachable(roots: seq<int>, ret: int)
        returns (n: int, ghost reached: set<int>, ghost dead: seq<int>)
      requires Valid() && Counted() && Rooted(roots) && Spare() && ret in absent
      modifies this`gcChain, this`gc, this`markChain, this`marked, this`order, this`graph, this`absent, this`counts,
        this`outside, next, prev, uiRef, loose
      ensures Valid() && Counted() && Reachable(old(graph), roots, reached)
      ensures n == |dead| && Distinct(dead) && forall x :: x in dead <==> old(Dead(reached, x))
      ensures dead == [] ==>
        graph == old(graph) && absent == old(absent) && outside == old(outside) && uiRef[..] == old(uiRef[..])
      ensures dead != [] ==>
        && Within(dead, |old(graph)|) && 0 <= ret < |old(graph)| == |old(outside)| && absent == old(absent) - {ret}
        && graph == old(graph)[ret := ArrayObj(Listed(old(graph), dead))] && outside == old(outside)[ret := 1]
        && (forall x :: 0 <= x < |graph| ==>
          uiRef[x] ==
            if x == ret then 1 else if x in Listed(old(graph), dead) then old(uiRef[x]) + 1 else old(uiRef[x]))
    {
      hide Chain, Children, Sound, Closed, AllIn, Reachable, Distinct, Within, CountedAs, Marking, Listed;
      Plain();
      RunMark(roots);
      reached, dead := MarkedSet(), gc;
      Presence(reached);
      Sizes(reached);
      n := 0;
      if gcChain == NULL {
        gcChain, gc := markChain, marked;
        UnMarkChain(gcChain, gc);
        NoneDead(reached);
      } else {
        n := Gathered(ret, reached);
      }
    }

    /** What marking says of each index. */
    lemma Presence(reached: set<int>)
      requires Marking() && reached == MarkedSet()
      requires forall x :: 0 <= x < |graph| ==> (x in marked <==> x in reached) && (x in gc <==> Dead(reached, x))
      ensures forall x :: x in gc <==> Dead(reached, x)
      ensures forall x :: x in marked <==> x in reached
      ensures forall x :: x in reached ==> 0 <= x < |graph| && x !in absent
      ensures forall x :: x in absent ==> 0 <= x < |graph| && x !in gc && x !in marked && uiRef[x] == counts[x]
      ensures Within(gc, |graph|) && Within(marked, |graph|) && (gcChain == NULL <==> gc == [])
      ensures Arrays() && Chain(next[..], prev[..], gcChain, gc) && Chain(next[..], prev[..], markChain, marked)
    {
      hide Children, Sound, AllIn;
    }

    /** Nothing was out of reach. */
    lemma NoneDead(reached: set<int>)
      requires Arrays() && gc == marked && Chain(next[..], prev[..], gcChain, gc)
      requires forall x :: 0 <= x < |graph| ==> (x in marked <==> x in reached) && !Dead(reached, x)
      requires forall x :: x in reached ==> x !in absent
      requires forall x :: 0 <= x < |graph| ==> uiRef[x] == counts[x]
      ensures Valid()
    {
      hide Chain, Sound;
    }

    /** The array of the unreachable, and one chain of everything. */
    method Gathered(ret: int, ghost reached: set<int>) returns (n: int)
      requires Arrays() && Counted() && Spare() && ret in absent && gcChain != NULL
      requires Chain(next[..], prev[..], gcChain, gc) && Chain(next[..], prev[..], markChain, marked)
      requires Within(gc, |graph|) && Within(marked, |graph|) && Distinct(gc)
      requires (forall x :: x in gc <==> Dead(reached, x)) && (forall x :: x in marked <==> x in reached)
      requires forall x :: x in reached ==> 0 <= x < |graph| && x !in absent
      requires forall x :: x in absent ==> 0 <= x < |graph| && x !in gc && x !in marked && uiRef[x] == counts[x]
      modifies this`gcChain, this`gc, this`graph, this`absent, this`counts, this`outside, next, prev, uiRef, loose
      ensures Valid() && Counted() && n == |old(gc)| && 0 <= ret < |old(graph)| == |old(outside)|
      ensures absent == old(absent) - {ret} && outside == old(outside)[ret := 1]
      ensures graph == old(graph)[ret := ArrayObj(Listed(old(graph), old(gc)))]
      ensures forall x :: 0 <= x < |graph| ==>
        uiRef[x] ==
          if x == ret then 1 else if x in Listed(old(graph), old(gc)) then old(counts)[x] + 1 else old(counts)[x]
    {
      hide Chain, Children, Sound, Distinct, Within, CountedAs, Listed;
      ghost var dead, live := gc, marked;
      var list;
      n, list := Relink(ret, reached);
      Everything(dead, live, ret, reached);
      Install(ret, list, dead, old(counts));
    }

    /** The links and counts of that. */
    method Relink(ret: int, ghost reached: set<int>) returns (n: int, list: seq<int>)
      requires Arrays() && Spare() && ret in absent && gcChain != NULL
      requires Chain(next[..], prev[..], gcChain, gc) && Chain(next[..], prev[..], markChain, marked)
      requires Within(gc, |graph|) && Within(marked, |graph|) && Distinct(gc)
      requires (forall x :: x in gc <==> Dead(reached, x)) && (forall x :: x in marked <==> x in reached)
      requires forall x :: x in reached ==> 0 <= x < |graph| && x !in absent
      requires forall x :: x in absent ==> 0 <= x < |graph| && x !in gc && x !in marked && uiRef[x] == counts[x]
      modifies this`gcChain, this`gc, this`counts, next, prev, uiRef
      ensures Arrays() && Chain(next[..], prev[..], gcChain, gc) && gc == old(gc) + ([ret] + marked)
      ensures n == |old(gc)| && list == Listed(graph, old(gc))
      ensures forall x :: 0 <= x < |graph| ==> uiRef[x] == counts[x] == old(counts)[x] + (if x in list then 1 else 0)
    {
      hide Chain, Children, Sound, Distinct, Within, Listed;
      ghost var dead, live, nx, pv := gc, marked, next[..], prev[..];
      SharedNothing(reached, ret);
      var tchain := AddToChain(markChain, ret, live);
      ChainApart(nx, pv, next[..], prev[..], gcChain, dead);
      var rlast;
      n, list, rlast := Gather(gcChain, dead);
      Linked(dead, live, ret);
      gcChain := JoinChains(gcChain, rlast, dead, tchain, [ret] + live);
      gc := dead + ([ret] + live);
      UnMarkChain(gcChain, gc);
      Everything(dead, live, ret, reached);
    }

    lemma SharedNothing(reached: set<int>, ret: int)
      requires Within(gc, next.Length) && ret !in gc
      requires (forall x :: x in gc <==> Dead(reached, x)) && (forall x :: x in marked <==> x in reached)
      ensures forall i :: 0 <= i < |gc| ==> 0 <= gc[i] < next.Length && gc[i] !in marked && gc[i] != ret
    {
      forall i | 0 <= i < |gc| ensures 0 <= gc[i] < next.Length && gc[i] !in marked && gc[i] != ret {
        assert gc[i] in gc;
        assert Dead(reached, gc[i]);
      }
    }

    lemma Linked(dead: seq<int>, live: seq<int>, ret: int)
      requires (forall i :: 0 <= i < |dead| ==> dead[i] !in live) && ret !in dead
      ensures forall i :: 0 <= i < |dead| ==> dead[i] !in [ret] + live
    {
      forall i | 0 <= i < |dead| ensures dead[i] !in [ret] + live {
        assert dead[i] in dead;
      }
    }

    lemma Everything(dead: seq<int>, live: seq<int>, ret: int, reached: set<int>)
      requires gc == dead + ([ret] + live) && 0 <= ret < |graph| && ret in absent
      requires (forall x :: x in dead <==> Dead(reached, x)) && (forall x :: x in live <==> x in reached)
      requires forall x :: x in reached ==> x !in absent
      ensures forall x :: 0 <= x < |graph| ==> (x in gc <==> x == ret || x !in absent)
    {
    }

    /** Count the objects of a chain, and take a reference to each that the array is to hold. */
    method Gather(chain: int, ghost s: seq<int>) returns (n: int, list: seq<int>, rlast: int)
      requires Arrays() && Chain(next[..], prev[..], chain, s) && Within(s, |graph|) && Spare()
      modifies this`counts, uiRef
      ensures Arrays() && n == |s| && list == Listed(graph, s) && rlast == if s == [] then NULL else s[|s| - 1]
      ensures forall x :: 0 <= x < |graph| ==>
        && counts[x] == old(counts)[x] + (if x in list then 1 else 0)
        && uiRef[x] == old(uiRef[x]) + (if x in list then 1 else 0)
    {
      hide Sound, Chain, Listed;
      ChainParts(next[..], prev[..], chain, s);
      var t := chain;
      n, list, rlast := 0, [], NULL;
      ListedNone();
      assert s[..0] == [];
      while t != NULL
        invariant 0 <= n <= |s| && t == (if n < |s| then s[n] else NULL) && rlast == (if n > 0 then s[n - 1] else NULL)
        invariant Arrays() && list == Listed(graph, s[..n]) && forall x :: x in list ==> x in s[..n]
        invariant forall x :: 0 <= x < |graph| ==>
          && counts[x] == old(counts)[x] + (if x in list then 1 else 0)
          && uiRef[x] == old(uiRef[x]) + (if x in list then 1 else 0)
        decreases |s| - n
      {
        rlast := t;
        assert s[n] !in s[..n];
        ListedNext(s, n);
        if !graph[t].PrototypeObj? && !graph[t].OuterObj? {
          AddRef(t);
          list := list + [t];
        }
        NextLink(chain, s, n);
        t := next[t];
        n := n + 1;
      }
      assert s[..n] == s;
    }

    method AddRef(t: int)
      requires Arrays() && 0 <= t < |graph| && counts[t] + 1 < MARK_FLAG
      modifies this`counts, uiRef
      ensures Arrays() && counts == old(counts)[t := old(counts)[t] + 1]
      ensures forall x :: 0 <= x < |graph| ==> uiRef[x] == old(uiRef[x]) + if x == t then 1 else 0
    {
      hide Sound;
      uiRef[t] := uiRef[t] + 1;
      counts := counts[t := counts[t] + 1];
    }

    lemma NextLink(chain: int, s: seq<int>, n: nat)
      requires Chain(next[..], prev[..], chain, s) && n < |s|
      ensures 0 <= s[n] < next.Length && next[s[n]] == NextOf(s, n)
    {
    }

    lemma ListedNone()
      ensures Listed(graph, []) == []
    {
    }

    lemma ListedNext(s: seq<int>, n: nat)
      requires Within(s, |graph|) && n < |s|
      ensures Listed(graph, s[..n + 1])
        == Listed(graph, s[..n]) + if graph[s[n]].PrototypeObj? || graph[s[n]].OuterObj? then [] else [s[n]]
    {
      assert s[..n + 1][..n] == s[..n];
    }

    /** The array is there, and the caller refers to it. */
    method Install(ret: int, list: seq<int>, ghost dead: seq<int>, ghost c: seq<int>)
      requires Arrays() && Chain(next[..], prev[..], gcChain, gc) && ret in absent && CountedAs(c)
      requires forall x :: 0 <= x < |graph| ==> (x in gc <==> x == ret || x !in absent)
      requires Within(dead, |graph|) && Distinct(dead) && (forall x :: x in dead ==> x !in absent)
      requires list == Listed(graph, dead)
      requires forall x :: 0 <= x < |graph| ==>
        uiRef[x] == counts[x] == c[x] + (if x in list then 1 else 0) && c[x] + 2 < MARK_FLAG
      modifies this`graph, this`absent, this`counts, this`outside, uiRef, loose
      ensures Valid() && Counted() && 0 <= ret < |old(graph)| == |old(outside)|
      ensures absent == old(absent) - {ret} && outside == old(outside)[ret := 1]
      ensures graph == old(graph)[ret := ArrayObj(list)]
      ensures forall x :: 0 <= x < |graph| ==>
        uiRef[x] == if x == ret then 1 else if x in list then c[x] + 1 else c[x]
    {
      hide Chain, Total, Loose, Kept, Strong, Listed, Children, Sound, Distinct, Within;
      ghost var l, k, g, gone := loose[..], kept[..], graph, absent;
      ListedOnce(g, dead);
      InBounds(dead);
      Nobody(ret, c);
      graph := graph[ret := ArrayObj(list)];
      absent := absent - {ret};
      loose[ret] := list;
      uiRef[ret] := uiRef[ret] + 1;
      counts := counts[ret := 1];
      outside := outside[ret := 1];
      assert loose[..] == l[ret := list];
      NewOwner(l, k, ret, list, c, counts);
      SoundStill(g, gone, ret, list);
      ArrayParts(list);
    }

    lemma InBounds(dead: seq<int>)
      requires Within(dead, |graph|)
      ensures forall x :: x in dead ==> 0 <= x < |graph|
    {
    }

    lemma Nobody(x: int, c: seq<int>)
      requires CountedAs(c) && x in absent && 0 <= x < |graph|
      ensures outside[x] == 0 && Owners(Heap(loose[..], kept[..], {}, c), x) == 0 && c[x] == 0
    {
      hide Total, Loose, Kept, Strong;
    }

    /** Put a chain behind another one. */
    method JoinChains(resurrected: int, rlast: int, ghost s: seq<int>, tchain: int, ghost t: seq<int>)
        returns (chain: int)
      requires next.Length == prev.Length && next != prev && Chain(next[..], prev[..], resurrected, s)
        && Chain(next[..], prev[..], tchain, t)
      requires s != [] && (forall i :: 0 <= i < |s| ==> s[i] !in t) && rlast == s[|s| - 1]
      modifies next, prev
      ensures Chain(next[..], prev[..], chain, s + t)
    {
      hide Chain;
      ChainParts(next[..], prev[..], resurrected, s);
      Join(next[..], prev[..], resurrected, s, tchain, t);
      ghost var nx, pv := next[..], prev[..];
      next[rlast] := tchain;
      if tchain != NULL {
        prev[tchain] := rlast;
      }
      assert next[..] == nx[rlast := tchain] && prev[..] == if tchain != NULL then pv[tchain := rlast] else pv;
      return resurrected;
    }

    lemma Plain()
      requires Valid()
      ensures forall x :: 0 <= x < |graph| ==> uiRef[x] == counts[x]
    {
      hide Chain, Sound;
      forall x | 0 <= x < |graph| ensures uiRef[x] == counts[x] {
        assert !Marked(x);
      }
    }

    lemma NothingMarked()
      requires Arrays() && Chain(next[..], prev[..], gcChain, gc) && marked == [] && markChain == NULL && order == gc
      requires forall x :: 0 <= x < |graph| ==> !Marked(x) && (x in gc <==> x !in absent)
      ensures Marking() && MarkedSet() == {} && forall x :: !Grey(x)
    {
      hide Alive;
      AliveAll(gc);
      assert Elements(marked) == {};
    }

    /** With no Mark running, what is marked is closed. */
    lemma BlackClosed()
      requires Marking() && forall x :: !Grey(x)
      ensures Closed(graph, MarkedSet())
      ensures forall x :: 0 <= x < |graph| ==>
        (x in marked <==> x in MarkedSet()) && (x in gc <==> Dead(MarkedSet(), x))
    {
      hide Chain, Sound;
      forall x | 0 <= x < |graph|
        ensures (x in marked <==> x in MarkedSet()) && (x in gc <==> Dead(MarkedSet(), x))
      {
        assert !Grey(x);
      }
      forall x | x in MarkedSet() ensures AllIn(Children(graph[x]), MarkedSet()) {
        assert x in marked;
      }
    }
  }

  // --- reference counts

  /** The references objects hold, the objects released, and the counts. */
  datatype Heap = Heap(loose: seq<seq<int>>, kept: seq<seq<int>>, freed: set<int>, counts: seq<int>)

  /** The number of references to an object from objects. */
  function Owners(h: Heap, x: int): int {
    Total(h.loose)[x] + Total(h.kept)[x]
  }

  /** Counts count: the references from elsewhere, those of other objects, and those pending. What was released
      is referred to no more. */
  ghost predicate Balanced(h: Heap, outside: seq<int>, pending: multiset<int>) {
    && |h.loose| == |h.kept| == |h.counts| == |outside|
    && (forall x :: 0 <= x < |outside| ==>
          outside[x] >= 0 && h.counts[x] == outside[x] + Owners(h, x) + pending[x]
            && outside[x] + Owners(h, x) + 1 < MARK_FLAG)
    && (forall x :: x in h.freed ==> 0 <= x < |outside| && h.counts[x] == 0 && h.loose[x] == [] && h.kept[x] == [])
    && (forall x :: x in pending ==> 0 <= x < |outside|)
    && (forall x :: 0 <= x < |outside| ==> Within(h.loose[x], |outside|) && Within(h.kept[x], |outside|))
  }

  /** How many references there are: what every subtraction makes less. */
  ghost function Weight(h: Heap, pending: multiset<int>): nat {
    |Total(h.loose)| + |Total(h.kept)| + |pending|
  }

  function Emptied(h: Heap, x: int): Heap
    requires 0 <= x < |h.loose| == |h.kept|
  {
    h.(loose := h.loose[x := []], kept := h.kept[x := []], freed := h.freed + {x})
  }

  function Loosened(h: Heap, x: int): Heap
    requires 0 <= x < |h.loose|
  {
    h.(loose := h.loose[x := []])
  }

  function HeldOnce(h: Heap, x: int): Heap
    requires 0 <= x < |h.counts|
  {
    h.(counts := h.counts[x := h.counts[x] + 1])
  }

  /** Of some objects the references are gone, since they were released; so is everything else in `all` whose
      count reached zero. Nothing is released that refers to itself. */
  ghost predicate Progress(all: seq<int>, a: Heap, b: Heap) {
    && |b.loose| == |a.loose| && |b.kept| == |a.kept| == |a.loose| && |b.counts| == |a.counts| && a.freed <= b.freed
    && (forall x :: 0 <= x < |a.loose| ==>
          (b.loose[x] == a.loose[x] && b.kept[x] == a.kept[x]) || (x in b.freed && b.loose[x] == [] && b.kept[x] == []))
    && (forall x :: x in all && 0 <= x < |a.counts| && a.counts[x] != 0 && b.counts[x] == 0 ==> x in b.freed)
    && (forall x :: x in b.freed && x !in a.freed && 0 <= x < |a.loose| ==> x !in a.loose[x] && x !in a.kept[x])
  }

  lemma Stays(all: seq<int>, h: Heap)
    requires |h.loose| == |h.kept|
    ensures Progress(all, h, h)
  {
  }

  lemma Onward(all: seq<int>, a: Heap, b: Heap, c: Heap)
    requires Progress(all, b, c)
    requires Progress(all, a, b)
    ensures Progress(all, a, c)
  {
  }

  lemma Grown(all: seq<int>, a: Heap, b: Heap)
    requires Progress(all, a, b)
    ensures a.freed <= b.freed
  {
  }

  lemma LowerProgress(all: seq<int>, h: Heap, x: int, b: Heap)
    requires 0 <= x < |h.counts| && h.counts[x] > 0
    requires Progress(all, h.(counts := h.counts[x := h.counts[x] - 1]), b)
    requires x in all && h.counts[x] == 1 ==> x in b.freed
    ensures Progress(all, h, b)
  {
  }

  lemma Subtracted(h: Heap, outside: seq<int>, pending: multiset<int>, x: int)
    requires Balanced(h, outside, pending) && pending[x] > 0
    ensures 0 <= x < |h.counts| == |outside| && h.counts[x] > 0 && x !in h.freed
    ensures Balanced(h.(counts := h.counts[x := h.counts[x] - 1]), outside, pending - multiset{x})
    ensures Weight(h.(counts := h.counts[x := h.counts[x] - 1]), pending - multiset{x}) == Weight(h, pending) - 1
  {
    hide Total, Within;
    assert x in pending;
    var less := pending - multiset{x};
    assert forall y :: less[y] == if y == x then pending[y] - 1 else pending[y];
    assert pending == less + multiset{x};
    var h' := h.(counts := h.counts[x := h.counts[x] - 1]);
    assert forall y :: Owners(h', y) == Owners(h, y);
  }

  lemma HeldBalance(h: Heap, outside: seq<int>, pending: multiset<int>, x: int)
    requires Balanced(h, outside, pending) && 0 <= x < |outside| && pending[x] == 0 && x !in h.freed
    ensures |h.counts| == |outside| && h.counts[x] + 1 < MARK_FLAG
      && Balanced(HeldOnce(h, x), outside, pending + multiset{x})
  {
    hide Total, Within;
    var more := pending + multiset{x};
    assert forall y :: more[y] == if y == x then pending[y] + 1 else pending[y];
    assert forall y :: Owners(HeldOnce(h, x), y) == Owners(h, y);
  }

  /** An object without references gives up its own. */
  lemma Released(h: Heap, outside: seq<int>, pending: multiset<int>, x: int, all: seq<int>)
    requires Balanced(h, outside, pending) && 0 <= x < |outside| && |h.counts| == |outside| && h.counts[x] == 0
    ensures |h.loose| == |h.kept| == |outside|
    ensures Balanced(Emptied(h, x), outside, pending + multiset(h.loose[x] + h.kept[x]))
    ensures Weight(Emptied(h, x), pending + multiset(h.loose[x] + h.kept[x])) == Weight(h, pending)
    ensures Progress(all, h, Emptied(h, x))
  {
    hide Total;
    Dropped(h.loose, x);
    Dropped(h.kept, x);
    if x in h.loose[x] {
      Held(h.loose, x, x);
    }
    if x in h.kept[x] {
      Held(h.kept, x, x);
    }
    var list := h.loose[x] + h.kept[x];
    assert multiset(list) == multiset(h.loose[x]) + multiset(h.kept[x]);
    forall y | y in pending + multiset(list) ensures 0 <= y < |outside| {
      if y !in pending {
        assert y in list;
      }
    }
    Sums(h, Emptied(h, x), multiset(h.loose[x]), multiset(h.kept[x]));
  }

  lemma Finalized(h: Heap, outside: seq<int>, pending: multiset<int>, x: int)
    requires Balanced(h, outside, pending) && 0 <= x < |outside|
    ensures |h.loose| == |outside| && Balanced(Loosened(h, x), outside, pending + multiset(h.loose[x]))
  {
    hide Total;
    Dropped(h.loose, x);
    var list := h.loose[x];
    forall y | y in pending + multiset(list) ensures 0 <= y < |outside| {
      if y !in pending {
        assert y in list;
      }
    }
    Sums(h, Loosened(h, x), multiset(list), multiset{});
  }

  /** References move from the owners to those pending. */
  lemma Sums(h: Heap, h': Heap, a: multiset<int>, b: multiset<int>)
    requires Total(h'.loose) + a == Total(h.loose) && Total(h'.kept) + b == Total(h.kept)
    ensures forall y :: Owners(h', y) + a[y] + b[y] == Owners(h, y)
  {
    hide Total;
    forall y ensures Owners(h', y) + a[y] + b[y] == Owners(h, y) {
      assert (Total(h'.loose) + a)[y] == Total(h'.loose)[y] + a[y];
      assert (Total(h'.kept) + b)[y] == Total(h'.kept)[y] + b[y];
    }
  }

  lemma StillHeld(h: Heap, outside: seq<int>, pending: multiset<int>, x: int)
    requires Balanced(h, outside, pending) && pending[x] > 0
    ensures x !in h.freed
  {
    hide Total;
    assert x in pending;
  }

  lemma HeldCount(h: Heap, outside: seq<int>, pending: multiset<int>, x: int)
    requires Balanced(h, outside, pending) && pending[x] > 0
    ensures 0 <= x < |h.counts| && h.counts[x] > 0
  {
    hide Total;
    assert x in pending;
  }

  lemma IsWithout(s: seq<int>, k: int)
    requires 0 <= k < |s|
    ensures Without(s, k) == s[..k] + s[k + 1..]
  {
  }

  // --- how far the sweep is

  /** Something refers to object `j` that is not finalized before it. */
  ghost predicate Anchored(h: Heap, outside: seq<int>, all: seq<int>, j: int)
    requires 0 <= j < |all|
  {
    || (0 <= all[j] < |outside| && outside[all[j]] > 0)
    || exists y ::
         0 <= y < |h.loose| && y < |h.kept| && y !in all[..j] && (all[j] in h.loose[y] || all[j] in h.kept[y])
  }

  ghost predicate AllAnchored(h: Heap, outside: seq<int>, all: seq<int>) {
    forall j :: 0 <= j < |all| ==> Anchored(h, outside, all, j)
  }

  /** Something before object `j` refers to it until it is released. */
  ghost predicate KeptEarlier(h: Heap, all: seq<int>, j: int)
    requires 0 <= j < |all|
  {
    exists y :: 0 <= y < |h.kept| && y in all[..j] && all[j] in h.kept[y]
  }

  /** Why object `j` can have its turn. */
  ghost predicate Reason(h: Heap, outside: seq<int>, all: seq<int>, j: int)
    requires 0 <= j < |all|
  {
    (0 <= all[j] < |h.counts| && h.counts[all[j]] == 0) || Anchored(h, outside, all, j) || KeptEarlier(h, all, j)
  }

  ghost predicate Reasons(h: Heap, outside: seq<int>, all: seq<int>, turns: seq<int>) {
    forall j :: 0 <= j < |all| && all[j] in turns ==> Reason(h, outside, all, j)
  }

  /** Everything in `all` is referred to, and nothing is kept by what comes before it. */
  ghost predicate Unkept(h: Heap, all: seq<int>) {
    forall j :: 0 <= j < |all| ==> 0 <= all[j] < |h.counts| && h.counts[all[j]] != 0 && !KeptEarlier(h, all, j)
  }

  /** None is released before its turn if each has an anchor; and only if, where nothing is kept. */
  ghost predicate CountsAll(h: Heap, outside: seq<int>, all: seq<int>, early: set<int>) {
    && (AllAnchored(h, outside, all) ==> early == {})
    && (Unkept(h, all) ==> (early == {} <==> AllAnchored(h, outside, all)))
  }

  lemma NoTurns(h: Heap, outside: seq<int>, all: seq<int>)
    ensures Reasons(h, outside, all, []) && Spared(all, 0, {}) && Taken(all, 0, [], {})
  {
  }

  lemma MoreReasons(h: Heap, outside: seq<int>, all: seq<int>, turns: seq<int>, i: int)
    requires Reasons(h, outside, all, turns) && 0 <= i < |all| && Distinct(all) && Reason(h, outside, all, i)
    ensures Reasons(h, outside, all, turns + [all[i]])
  {
    hide Reason;
  }

  lemma SparedOn(all: seq<int>, i: int, freed: set<int>)
    requires 0 <= i && Spared(all, i, freed)
    ensures Spared(all, i + 1, freed)
  {
  }

  /** Then the next in the list is next. */
  lemma SparedNext(all: seq<int>, i: int, j: int, freed: set<int>)
    requires 0 <= i < j <= |all| && (forall m :: i < m < j ==> all[m] in freed) && Spared(all, i + 1, freed)
    ensures j == i + 1
  {
    var next := if i + 1 < |all| then all[i + 1] else 0;
  }

  /** None from `i` on is released. */
  ghost predicate Spared(all: seq<int>, i: int, freed: set<int>) {
    forall j :: 0 <= i <= j < |all| ==> all[j] !in freed
  }

  /** From `i` on, what is not released holds what it held; and counts reach zero only by release. */
  ghost predicate Untaken(all: seq<int>, i: int, h0: Heap, h: Heap) {
    && |h.loose| == |h0.loose| == |h.kept| == |h0.kept| == |h.counts| == |h0.counts| && Within(all, |h.loose|)
    && (forall j :: 0 <= i <= j < |all| && all[j] !in h.freed ==>
          h.loose[all[j]] == h0.loose[all[j]] && h.kept[all[j]] == h0.kept[all[j]])
    && (forall j :: 0 <= j < |all| && h0.counts[all[j]] != 0 && h.counts[all[j]] == 0 ==> all[j] in h.freed)
  }

  /** Of the first `i` objects, each had its turn, in order, or was released before it. */
  ghost predicate Taken(all: seq<int>, i: int, turns: seq<int>, freed: set<int>) {
    && 0 <= i <= |all| && |turns| <= i && Distinct(turns)
    && (forall k :: 0 <= k < |turns| ==> turns[k] in all[..i])
    && (forall x :: x in all[..i] && x !in turns ==> x in freed)
  }

  lemma UntakenNone(all: seq<int>, h: Heap)
    requires |h.loose| == |h.kept| == |h.counts| && Within(all, |h.loose|)
    ensures Untaken(all, 0, h, h)
  {
  }

  lemma UntakenHold(all: seq<int>, i: int, h0: Heap, h: Heap, x: int)
    requires Untaken(all, i, h0, h) && 0 <= x < |h.counts| && h.counts[x] >= 0
    ensures Untaken(all, i, h0, HeldOnce(h, x))
  {
    var h' := HeldOnce(h, x);
    assert forall y :: 0 <= y < |h.counts| && h'.counts[y] == 0 ==> h.counts[y] == 0;
  }

  lemma UntakenProgress(all: seq<int>, i: int, h0: Heap, a: Heap, b: Heap)
    requires Untaken(all, i, h0, a) && Progress(all, a, b)
    ensures Untaken(all, i, h0, b)
  {
    forall j | 0 <= j < |all| && h0.counts[all[j]] != 0 && b.counts[all[j]] == 0 ensures all[j] in b.freed {
      assert all[j] in all;
    }
  }

  lemma UntakenLoosened(all: seq<int>, i: int, h0: Heap, h: Heap)
    requires Untaken(all, i, h0, h) && 0 <= i < |all| && Distinct(all)
    ensures 0 <= all[i] < |h.loose| && Untaken(all, i + 1, h0, Loosened(h, all[i]))
  {
  }

  lemma UntakenLater(all: seq<int>, i: int, j: int, h0: Heap, h: Heap)
    requires Untaken(all, i, h0, h) && 0 <= i <= j
    ensures Untaken(all, j, h0, h)
  {
  }

  /** The first object has nothing before it. */
  lemma FirstReason(h: Heap, outside: seq<int>, all: seq<int>)
    requires Balanced(h, outside, multiset{}) && all != [] && Within(all, |outside|)
    ensures Reason(h, outside, all, 0)
  {
    hide Total;
    var x := all[0];
    if h.counts[x] != 0 && outside[x] == 0 {
      if Total(h.loose)[x] > 0 {
        var y := Holder(h.loose, x);
        assert y !in all[..0];
      } else {
        var y := Holder(h.kept, x);
        assert y !in all[..0];
      }
    }
  }

  /** An object that was not released before its turn. */
  lemma NextReason(all: seq<int>, i: int, j: int, h0: Heap, b: Heap, outside: seq<int>)
    requires Swept(all, i, h0, b) && 0 <= i < j < |all| && Distinct(all) && Untaken(all, i + 1, h0, b)
    requires Balanced(b, outside, multiset{all[i]}) && b.loose[all[i]] == []
    requires (forall m :: i < m < j ==> all[m] in b.freed) && all[j] !in b.freed
    ensures Reason(h0, outside, all, j)
  {
    hide Total;
    var x := all[j];
    if h0.counts[x] != 0 && outside[x] == 0 {
      assert multiset{all[i]}[x] == 0;
      assert Owners(b, x) > 0;
      if Total(b.loose)[x] > 0 {
        var y := Holder(b.loose, x);
        NotTaken(all, i, j, h0, b, outside, y);
        assert x in h0.loose[y];
      } else {
        var y := Holder(b.kept, x);
        assert x in h0.kept[y];
        assert y in all[..j] ==> KeptEarlier(h0, all, j);
      }
    }
  }

  lemma NotTaken(all: seq<int>, i: int, j: int, h0: Heap, b: Heap, outside: seq<int>, y: int)
    requires Swept(all, i, h0, b) && 0 <= i < j < |all| && 0 <= y < |b.loose| && b.loose[y] != []
    requires Balanced(b, outside, multiset{all[i]}) && b.loose[all[i]] == []
    requires forall m :: i < m < j ==> all[m] in b.freed
    ensures y !in all[..j]
  {
    hide Total;
    forall m | 0 <= m < j ensures all[m] != y && all[..j][m] == all[m] {
    }
  }

  /** Where every object has an anchor, none is released before its turn: the last of them would have lost its
      anchor before. */
  lemma {:induction false} NoneEarly(all: seq<int>, i: int, j: int, h0: Heap, a: Heap, b: Heap, outside: seq<int>,
      pending: multiset<int>)
    requires 0 <= i < j < |all| && Distinct(all) && AllAnchored(h0, outside, all) && Spared(all, i + 1, a.freed)
    requires Untaken(all, i + 1, h0, a) && Progress(all, a, b) && Swept(all, i, h0, b) && Balanced(b, outside, pending)
    ensures all[j] !in b.freed
    decreases |all| - j
  {
    hide Total, Anchored, Balanced, Swept, Untaken, Progress;
    forall k | j < k < |all| ensures all[k] !in b.freed {
      NoneEarly(all, i, k, h0, a, b, outside, pending);
    }
    AnchorHolds(all, i, j, h0, a, b, outside, pending);
  }

  lemma AnchorHolds(all: seq<int>, i: int, j: int, h0: Heap, a: Heap, b: Heap, outside: seq<int>,
      pending: multiset<int>)
    requires 0 <= i < j < |all| && Distinct(all) && Anchored(h0, outside, all, j) && all[j] !in a.freed
    requires Untaken(all, i + 1, h0, a) && Progress(all, a, b) && Swept(all, i, h0, b) && Balanced(b, outside, pending)
    requires forall k :: j < k < |all| ==> all[k] !in a.freed && all[k] !in b.freed
    ensures all[j] !in b.freed
  {
    hide Total;
    var x := all[j];
    if !(0 <= x < |outside| && outside[x] > 0) {
      var y :| 0 <= y < |h0.loose| && y !in all[..j] && (x in h0.loose[y] || x in h0.kept[y]);
      if y != x {
        StillHolds(all, i, j, h0, a, b, y);
        if x in h0.loose[y] {
          Held(b.loose, y, x);
        } else {
          Held(b.kept, y, x);
        }
        assert Owners(b, x) > 0;
      }
    }
  }

  lemma StillHolds(all: seq<int>, i: int, j: int, h0: Heap, a: Heap, b: Heap, y: int)
    requires 0 <= i < j < |all| && Distinct(all) && 0 <= y < |h0.loose| && y !in all[..j] && y != all[j]
    requires Untaken(all, i + 1, h0, a) && Progress(all, a, b) && Swept(all, i, h0, b)
    requires forall k :: j < k < |all| ==> all[k] !in a.freed && all[k] !in b.freed
    ensures b.loose[y] == h0.loose[y] && b.kept[y] == h0.kept[y]
  {
    forall m | 0 <= m < j ensures all[m] != y {
      assert all[..j][m] == all[m];
    }
    if y in all {
      var k :| 0 <= k < |all| && all[k] == y;
      assert k > j;
    }
  }

  lemma AllSpared(all: seq<int>, i: int, h0: Heap, a: Heap, b: Heap, outside: seq<int>, pending: multiset<int>)
    requires 0 <= i < |all| && Distinct(all)
    requires Untaken(all, i + 1, h0, a) && Progress(all, a, b) && Swept(all, i, h0, b) && Balanced(b, outside, pending)
    ensures AllAnchored(h0, outside, all) && Spared(all, i + 1, a.freed) ==> Spared(all, i + 1, b.freed)
  {
    hide AllAnchored, Progress, Swept, Balanced, Untaken, Distinct;
    if AllAnchored(h0, outside, all) && Spared(all, i + 1, a.freed) {
      forall j | i < j < |all| ensures all[j] !in b.freed {
        NoneEarly(all, i, j, h0, a, b, outside, pending);
      }
    }
  }

  lemma TookTurn(all: seq<int>, i: int, j: int, turns: seq<int>, freed: set<int>, freed': set<int>)
    requires Taken(all, i, turns, freed) && freed <= freed' && 0 <= i < j <= |all| && Distinct(all)
    requires forall m :: i < m < j ==> all[m] in freed'
    ensures Taken(all, j, turns + [all[i]], freed')
  {
    var more := turns + [all[i]];
    assert forall x :: x in all[..i] ==> x in all[..j];
    assert all[..j][i] == all[i];
    forall k | 0 <= k < |turns| ensures turns[k] != all[i] {
      var m :| 0 <= m < i && all[..i][m] == turns[k];
    }
    forall x | x in all[..j] && x !in more ensures x in freed' {
      var m :| 0 <= m < j && all[..j][m] == x;
      if m < i {
        assert all[..i][m] == x;
      }
    }
  }

  /** Every reference list is the one of the beginning or was given up by an object of `all`; the first `i` of
      them are finalized, and released if nothing refers to them. */
  ghost predicate Swept(all: seq<int>, i: int, h0: Heap, h: Heap) {
    && |h.loose| == |h.kept| == |h.counts| == |h0.loose| == |h0.kept| && 0 <= i <= |all| && Within(all, |h.loose|)
    && (forall x :: x in h.freed ==> x in all)
    && (forall x :: 0 <= x < |h.loose| ==> h.loose[x] == h0.loose[x] || (x in all && h.loose[x] == []))
    && (forall x :: 0 <= x < |h.kept| ==> h.kept[x] == h0.kept[x] || (x in h.freed && h.kept[x] == []))
    && (forall j :: 0 <= j < i ==> h.loose[all[j]] == [] && (h.counts[all[j]] == 0 ==> all[j] in h.freed))
  }

  lemma SweptNone(all: seq<int>, h: Heap)
    requires |h.loose| == |h.kept| == |h.counts| && Within(all, |h.loose|) && h.freed == {}
    ensures Swept(all, 0, h, h)
  {
  }

  lemma SweptHold(all: seq<int>, i: int, h0: Heap, h: Heap, x: int)
    requires Swept(all, i, h0, h) && 0 <= x < |h.counts| && h.counts[x] >= 0
    ensures Swept(all, i, h0, HeldOnce(h, x))
  {
    var h' := HeldOnce(h, x);
    assert forall y :: 0 <= y < |h.counts| && h'.counts[y] == 0 ==> h.counts[y] == 0;
  }

  lemma SweptProgress(all: seq<int>, i: int, h0: Heap, a: Heap, b: Heap)
    requires Swept(all, i, h0, a) && Progress(all, a, b) && (forall x :: x in b.freed ==> x in all)
    ensures Swept(all, i, h0, b)
  {
    forall j | 0 <= j < i ensures b.loose[all[j]] == [] && (b.counts[all[j]] == 0 ==> all[j] in b.freed) {
      assert all[j] in all;
    }
  }

  lemma SweptFinalize(all: seq<int>, i: int, h0: Heap, h: Heap, t: int, b: Heap)
    requires Swept(all, i, h0, h) && t in all && 0 <= t < |h.loose|
    requires Progress(all, Loosened(h, t), b) && (forall x :: x in b.freed ==> x in all)
    ensures Swept(all, i, h0, b) && b.loose[t] == []
  {
    assert Swept(all, i, h0, Loosened(h, t)) by {
      hide Progress;
    }
    SweptProgress(all, i, h0, Loosened(h, t), b);
  }

  /** The object whose turn it was, and those released before theirs. */
  lemma SweptTurn(all: seq<int>, i: int, j: int, h0: Heap, a: Heap, b: Heap, outside: seq<int>, pending: multiset<int>)
    requires Swept(all, i, h0, b) && 0 <= i < j <= |all| && Progress(all, a, b) && Balanced(b, outside, pending)
    requires 0 <= all[i] < |a.counts| == |a.loose| && a.counts[all[i]] > 0 && a.loose[all[i]] == []
    requires forall m :: i < m < j ==> all[m] in b.freed
    ensures Swept(all, j, h0, b)
  {
    hide Total;
    forall m | 0 <= m < j ensures b.loose[all[m]] == [] && (b.counts[all[m]] == 0 ==> all[m] in b.freed) {
      if m == i {
        assert all[i] in all;
      }
    }
  }

  /** One more owner. */
  lemma NewOwner(l: seq<seq<int>>, k: seq<seq<int>>, ret: int, list: seq<int>, c: seq<int>, c': seq<int>)
    requires 0 <= ret < |l| && l[ret] == [] && Distinct(list)
    ensures forall x ::
      Owners(Heap(l[ret := list], k, {}, c'), x) == Owners(Heap(l, k, {}, c), x) + (if x in list then 1 else 0)
  {
    hide Total;
    var l' := l[ret := list];
    Dropped(l', ret);
    assert l'[ret := []] == l;
    forall x ensures Owners(Heap(l', k, {}, c'), x) == Owners(Heap(l, k, {}, c), x) + (if x in list then 1 else 0) {
      Once(list, x);
      assert (Total(l) + multiset(list))[x] == Total(l)[x] + multiset(list)[x];
    }
  }

  lemma {:induction false} Once(s: seq<int>, x: int)
    requires Distinct(s)
    ensures multiset(s)[x] == if x in s then 1 else 0
  {
    if s != [] {
      var t, l := s[..|s| - 1], s[|s| - 1];
      Once(t, x);
      assert s == t + [l];
      assert l !in t;
    }
  }

  lemma {:induction false} ListedOnce(g: Graph, s: seq<int>)
    requires Within(s, |g|) && Distinct(s)
    ensures Distinct(Listed(g, s))
  {
    if s != [] {
      var t, x := s[..|s| - 1], s[|s| - 1];
      ListedOnce(g, t);
      assert x !in t;
    }
  }

  lemma SoundStill(g: Graph, absent: set<int>, ret: int, list: seq<int>)
    requires Sound(g, absent) && 0 <= ret < |g| && forall x :: x in list ==> 0 <= x < |g| && x !in absent
    ensures Sound(g[ret := ArrayObj(list)], absent - {ret})
  {
    hide Children;
    ArrayParts(list);
    var g' := g[ret := ArrayObj(list)];
    forall x, k | 0 <= x < |g'| && 0 <= k < |Children(g'[x])|
      ensures NULL <= Children(g'[x])[k] < |g'|
      ensures x !in absent - {ret} && Children(g'[x])[k] != NULL ==> Children(g'[x])[k] !in absent - {ret}
    {
      if x == ret {
        assert list[k] in list;
      } else {
        assert g'[x] == g[x];
      }
    }
  }

  /** Without what was not reached. */
  lemma FewerSound(g: Graph, absent: set<int>, reached: set<int>, freed: set<int>)
    requires Sound(g, absent) && Closed(g, reached)
    requires forall x :: 0 <= x < |g| ==> (x in reached <==> x !in absent && x !in freed)
    ensures Sound(g, absent + freed)
  {
    hide Children;
  }

  lemma ArrayParts(list: seq<int>)
    ensures var b := ArrayObj(list); Children(b) == list && Loose(b) == list && Kept(b) == []
    ensures NULL !in list ==> Strong(list) == list
    ensures Strong([]) == []
  {
    if NULL !in list {
      StrongAll(list);
    }
  }

  lemma {:induction false} StrongAll(s: seq<int>)
    requires NULL !in s
    ensures Strong(s) == s
  {
    if s != [] {
      StrongAll(s[1..]);
    }
  }

  /** What a collection leaves. */
  ghost predicate Collected(outside: seq<int>, reached: set<int>, absent: set<int>, h0: Heap, h: Heap) {
    && |h.loose| == |h.kept| == |h.counts| == |h0.loose| == |h0.kept| == |h0.counts| == |outside|
    && (forall x :: x in h.freed ==> 0 <= x < |outside| && x !in reached && x !in absent)
    && (forall x :: 0 <= x < |outside| && x in reached ==>
          h.loose[x] == h0.loose[x] && h.kept[x] == h0.kept[x]
            && h.counts[x] == h0.counts[x] - (Owners(h0, x) - Owners(h, x)))
    && (forall x :: 0 <= x < |outside| && x in absent ==> h.loose[x] == [] && h.kept[x] == [])
    && (forall x :: 0 <= x < |outside| && x !in reached && x !in absent ==>
          && h.loose[x] == [] && h.kept[x] == (if x in h.freed then [] else h0.kept[x])
          && (x in h.freed <==> outside[x] + Owners(h, x) == 0))
  }

  lemma Parts(b: Body)
    ensures forall x :: x in Strong(Loose(b)) || x in Strong(Kept(b)) ==> x in Children(b) && x != NULL
  {
  }

  /** The references kept until release lead from closures to prototypes and classes, and from prototypes to
      those nested in them: `rank` grows along them. Then everything out of reach is released, if nothing outside
      refers to it, whatever cycles it was part of. */
  lemma {:induction false} AllReleased(g: Graph, outside: seq<int>, reached: set<int>, absent: set<int>, h0: Heap,
      h: Heap, rank: seq<nat>, x: int)
    requires Collected(outside, reached, absent, h0, h) && |outside| == |g| == |rank| && Closed(g, reached)
    requires forall y :: 0 <= y < |g| && y !in absent ==>
      h0.loose[y] == Strong(Loose(g[y])) && h0.kept[y] == Strong(Kept(g[y]))
    requires forall y :: 0 <= y < |g| && y !in reached && y !in absent ==> outside[y] == 0
    requires forall y, z :: 0 <= y < |g| && 0 <= z < |g| && z in Kept(g[y]) ==> rank[y] < rank[z]
    requires 0 <= x < |g| && x !in reached && x !in absent
    ensures x in h.freed
    decreases rank[x]
  {
    hide Total, Loose, Kept, Children, Closed;
    if Total(h.loose)[x] > 0 {
      var y := Holder(h.loose, x);
      Refers(g, reached, y, x);
    } else if Total(h.kept)[x] > 0 {
      var y := Holder(h.kept, x);
      Refers(g, reached, y, x);
      AllReleased(g, outside, reached, absent, h0, h, rank, y);
    }
  }

  /** What a reached object refers to is reached. */
  lemma Refers(g: Graph, reached: set<int>, y: int, x: int)
    requires Closed(g, reached) && 0 <= y < |g|
    ensures y in reached && (x in Strong(Loose(g[y])) || x in Strong(Kept(g[y]))) ==> x in reached
  {
    hide Loose, Kept, Children;
    Parts(g[y]);
  }

  ghost predicate AllIn(c: seq<int>, m: set<int>) {
    forall k :: 0 <= k < |c| && c[k] != NULL ==> c[k] in m
  }

  lemma AllInSnoc(c: seq<int>, i: int, m: set<int>, m': set<int>)
    requires 0 <= i < |c| && AllIn(c[..i], m) && m <= m' && (c[i] == NULL || c[i] in m')
    ensures AllIn(c[..i + 1], m')
  {
    forall k | 0 <= k < i && c[k] != NULL ensures c[k] in m' {
      assert c[..i][k] == c[k];
    }
  }

  lemma ChildIn(g: Graph, o: int, i: int)
    requires 0 <= o < |g| && 0 <= i < |Children(g[o])| && Children(g[o])[i] != NULL
    ensures forall t: set<int> :: o in t && Closed(g, t) ==> Children(g[o])[i] in t
  {
    hide Children;
  }

  lemma RootsIn(g: Graph, roots: seq<int>, m: set<int>)
    requires AllIn(roots, m) && Closed(g, m) && forall t: set<int> :: AllIn(roots, t) && Closed(g, t) ==> m <= t
    ensures Reachable(g, roots, m)
  {
    hide Closed;
    forall t: set<int> | (forall r :: r in roots && r != NULL ==> r in t) && Closed(g, t) ensures m <= t {
      assert AllIn(roots, t);
    }
    forall r | r in roots && r != NULL ensures r in m {
      var k :| 0 <= k < |roots| && roots[k] == r;
    }
  }

  lemma ChainDistinct(next: seq<int>, prev: seq<int>, head: int, s: seq<int>, k: int)
    requires Chain(next, prev, head, s) && 0 <= k < |s|
    ensures s[k] !in Without(s, k) && forall x :: x in s <==> x == s[k] || x in Without(s, k)
  {
    var t := Without(s, k);
    forall x | x in s && x != s[k] ensures x in t {
      var i :| 0 <= i < |s| && s[i] == x;
      assert t[if i < k then i else i - 1] == x;
    }
    forall i | 0 <= i < |t| ensures t[i] != s[k] && t[i] in s {
    }
  }

  lemma ChainParts(next: seq<int>, prev: seq<int>, head: int, s: seq<int>)
    requires Chain(next, prev, head, s)
    ensures Within(s, |next|) && Distinct(s) && (head == NULL <==> s == []) && (s != [] ==> s[0] == head)
  {
  }

  /** Two chains one after the other. */
  lemma Join(next: seq<int>, prev: seq<int>, a: int, s: seq<int>, b: int, t: seq<int>)
    requires Chain(next, prev, a, s) && Chain(next, prev, b, t) && s != [] && forall i :: 0 <= i < |s| ==> s[i] !in t
    ensures 0 <= s[|s| - 1] < |next| && (b != NULL ==> 0 <= b < |prev|)
    ensures Chain(next[s[|s| - 1] := b], if b != NULL then prev[b := s[|s| - 1]] else prev, a, s + t)
  {
    var l := s[|s| - 1];
    var n', p' := next[l := b], if b != NULL then prev[b := l] else prev;
    forall i | 0 <= i < |s + t| ensures n'[(s + t)[i]] == NextOf(s + t, i) && p'[(s + t)[i]] == PrevOf(s + t, i) {
      if i >= |s| {
        assert (s + t)[i] == t[i - |s|] && t[i - |s|] in t && l !in t;
        if i > |s| {
          assert t[i - |s|] != t[0];
        }
      } else {
        assert (s + t)[i] == s[i];
        assert t != [] ==> s[i] != t[0];
      }
    }
  }

  function Upto(n: int): (r: set<int>)
    ensures forall x :: x in r <==> 0 <= x < n
    ensures |r| == if n >= 0 then n else 0
    decreases n
  {
    if n <= 0 then {}
    else
      var r := Upto(n - 1);
      r + {n - 1}
  }

  ghost function Elements(s: seq<int>): (r: set<int>)
    ensures forall x :: x in r <==> x in s
  {
    set x | x in s
  }

  lemma ElementsMore(s: seq<int>, t: seq<int>, o: int)
    requires forall x :: x in s <==> x == o || x in t
    ensures Elements(s) == Elements(t) + {o}
  {
    hide Elements;
    assert forall x :: x in Elements(s) <==> x in Elements(t) + {o};
  }

  lemma {:induction false} SeqCard(s: seq<int>)
    requires Distinct(s)
    ensures |Elements(s)| == |s|
  {
    if s != [] {
      var t := s[..|s| - 1];
      SeqCard(t);
      var l := s[|s| - 1];
      assert s == t + [l] && l !in t;
      assert Elements(s) == Elements(t) + {l};
    }
  }

  lemma Cardinality3(s: seq<int>, t: seq<int>, a: set<int>, n: int)
    requires Within(s, n) && Within(t, n) && Distinct(s) && Distinct(t) && n >= 0
    requires forall x :: x in a ==> 0 <= x < n && x !in t
    requires forall x :: 0 <= x < n ==> (x in s <==> x !in t && x !in a)
    ensures |s| + |t| + |a| == n
  {
    SeqCard(s);
    SeqCard(t);
    Disjoint(s, t, a, n);
    assert |Elements(s) + Elements(t) + a| == |Elements(s)| + |Elements(t)| + |a|;
  }

  lemma Disjoint(s: seq<int>, t: seq<int>, a: set<int>, n: int)
    requires Within(s, n) && Within(t, n) && (forall x :: x in a ==> 0 <= x < n && x !in t)
    requires forall x :: 0 <= x < n ==> (x in s <==> x !in t && x !in a)
    ensures Elements(s) + Elements(t) + a == Upto(n) && Elements(s) !! Elements(t) !! a
  {
    hide Elements, Upto;
    forall x | x in Elements(s) ensures 0 <= x < n && x !in t && x !in a {
      var i :| 0 <= i < |s| && s[i] == x;
    }
    forall x | x in Elements(t) ensures 0 <= x < n {
      var i :| 0 <= i < |t| && t[i] == x;
    }
  }

  lemma CardinalityOf(s: seq<int>, m: set<int>)
    requires Distinct(s) && forall x :: x in s <==> x in m
    ensures |s| == |m|
  {
    SeqCard(s);
    assert Elements(s) == m;
  }

  // --- an object that is not counted

  /** One array in another. */
  const TWO: Graph := [ArrayObj([1]), ArrayObj([])]

  /** Without roots both are released, the inner one while the outer one is finalized: the result is 1. */
  method CollectTwo() returns (n: int, ghost released: set<int>)
    ensures n == 1 && released == {0, 1}
  {
    hide *;
    TwoCounts(TWO);
    var s := new LVSharedState(TWO, [0, 0]);
    ghost var h := HeapOfTwo(s);
    assert s.gc == [0, 1];
    NoRoots(s);
    ghost var reached, turns;
    n, reached, turns := s.CollectGarbage([]);
    released := s.freed;
    NoneReached(TWO, reached);
    TurnsOfTwo(s, reached, turns);
    AliveAll([0, 1]);
    OneTurn(h, s.Now(), [0, 1], turns);
  }

  lemma TwoLists(g: Graph)
    requires g == TWO
    ensures LooseLists(g) == [[1], []] && KeptLists(g) == [[], []] && Sound(g, {}) && Shut(g[0]) && Shut(g[1])
    ensures |g| == 2 && Strong(Loose(g[0])) == [1] && Strong(Loose(g[1])) == []
    ensures Strong(Kept(g[0])) == [] && Strong(Kept(g[1])) == []
  {
    ArrayParts([1]);
    ArrayParts([]);
    assert g[0] == ArrayObj([1]) && g[1] == ArrayObj([]);
    assert Children(g[0]) == [1] && Children(g[1]) == [];
  }

  lemma TotalOfTwo(a: seq<int>, b: seq<int>)
    ensures Total([a, b]) == multiset(a) + multiset(b)
  {
    var none: seq<seq<int>> := [];
    assert [a, b][..1] == [a] && [a][..0] == none && Total(none) == multiset{};
    assert Total([a]) == Total([a][..0]) + multiset(a);
    assert Total([a, b]) == Total([a, b][..1]) + multiset(b);
  }

  /** Only the first refers to the second. */
  lemma TwoTotals()
    ensures Total([[1], []]) == multiset{1} && Total([[], []]) == multiset{} && multiset([1]) == multiset{1}
  {
    hide Total;
    TotalOfTwo([1], []);
    TotalOfTwo([], []);
    var none: seq<int> := [];
    assert multiset(none) == multiset{};
  }

  lemma TwoCounts(g: Graph)
    requires g == TWO
    ensures |g| == 2 && Sound(g, {}) && Count(g, [0, 0], 0) == 0 && Count(g, [0, 0], 1) == 1
    ensures forall x :: 0 <= x < |g| ==> [0, 0][x] >= 0 && Count(g, [0, 0], x) + 1 < MARK_FLAG
  {
    hide Total, Sound, LooseLists, KeptLists;
    TwoLists(g);
    TwoTotals();
  }

  lemma HeapOfTwo(s: LVSharedState) returns (h: Heap)
    requires s.graph == TWO && s.absent == {} && s.outside == [0, 0] && s.Counted()
    ensures h == s.Now() && h.loose == [[1], []] && h.kept == [[], []] && h.counts == [0, 1]
  {
    hide Total, Sound, Loose, Kept, Strong, LooseLists, KeptLists, Shut;
    h := s.Now();
    TwoLists(s.graph);
    TwoTotals();
    assert h.loose == [[1], []] && h.kept == [[], []];
    assert forall x :: 0 <= x < 2 ==> h.counts[x] == Owners(Heap(h.loose, h.kept, {}, h.counts), x);
  }

  lemma NoRoots(s: LVSharedState)
    requires s.graph == TWO && s.absent == {}
    ensures s.Rooted([]) && s.Detached([])
  {
    hide Reachable, Sound, Shut;
    TwoLists(s.graph);
  }

  lemma NoneReached(g: Graph, reached: set<int>)
    requires Reachable(g, [], reached)
    ensures reached == {}
  {
    var none: set<int> := {};
    assert Closed(g, none);
    assert reached <= none;
  }

  lemma TurnsOfTwo(s: LVSharedState, reached: set<int>, turns: seq<int>)
    requires s.graph == TWO && s.absent == {} && reached == {} && forall x :: x in turns ==> s.Dead(reached, x)
    requires s.Owning() && (|turns| > 0 <==> s.AnyDead(reached))
    ensures Within(turns, 2) && turns != [] && s.Now().freed == s.freed
  {
    assert |TWO| == 2;
    assert s.Dead(reached, 0);
    forall i | 0 <= i < |turns| ensures 0 <= turns[i] < 2 {
      assert turns[i] in turns;
    }
  }

  lemma OneTurn(h: Heap, h': Heap, dead: seq<int>, turns: seq<int>)
    requires h.loose == [[1], []] && h.kept == [[], []] && h.counts == [0, 1] && dead == [0, 1]
    requires Collected([0, 0], {}, {}, h, h') && Within(turns, 2) && Distinct(turns)
    requires turns != [] && Reasons(h, [0, 0], dead, turns)
    ensures |turns| == 1 && h'.freed == {0, 1}
  {
    hide Total;
    TwoTotals();
    assert h'.loose == [[], []] && h'.kept == [[], []];
    NotAnchored(h, dead);
    forall k | 0 <= k < |turns| ensures turns[k] == 0 {
      assert turns[k] in turns && dead[1] == 1;
    }
    SeqCard(turns);
    assert Elements(turns) == {0};
    assert Owners(h', 0) == 0 && Owners(h', 1) == 0 && h'.loose[0] == [] && h'.loose[1] == [];
    assert 0 in h'.freed && 1 in h'.freed;
    assert forall x :: x in h'.freed ==> x in {0, 1};
    assert h'.freed == {0, 1};
  }

  lemma NotAnchored(h: Heap, dead: seq<int>)
    requires h.loose == [[1], []] && h.kept == [[], []] && h.counts == [0, 1] && dead == [0, 1]
    ensures !Reason(h, [0, 0], dead, 1)
  {
    assert dead[..1] == [0];
    assert dead[1] == 1;
  }
}
