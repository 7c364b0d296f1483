/** Who refers to whom: counting the references that objects hold, and lists that objects drop out of. */
module References {

  // --- all references held

  /** Every reference in a sequence of lists. */
  function Total(refs: seq<seq<int>>): multiset<int> {
    if refs == [] then multiset{} else Total(refs[..|refs| - 1]) + multiset(refs[|refs| - 1])
  }

  /** An object that drops its references. */
  lemma {:induction false} Dropped(refs: seq<seq<int>>, x: int)
    requires 0 <= x < |refs|
    ensures Total(refs[x := []]) + multiset(refs[x]) == Total(refs)
  {
    var n := |refs| - 1;
    if x < n {
      Dropped(refs[..n], x);
      assert refs[x := []][..n] == refs[..n][x := []];
    } else {
      assert refs[x := []][..n] == refs[..n];
      var none: seq<int> := [];
      assert multiset(none) == multiset{};
    }
  }

  lemma {:induction false} Holder(refs: seq<seq<int>>, y: int) returns (x: int)
    requires Total(refs)[y] > 0
    ensures 0 <= x < |refs| && y in refs[x]
  {
    var n := |refs| - 1;
    if y in refs[n] {
      x := n;
    } else {
      assert y !in multiset(refs[n]);
      x := Holder(refs[..n], y);
    }
  }

  lemma {:induction false} Held(refs: seq<seq<int>>, x: int, y: int)
    requires 0 <= x < |refs| && y in refs[x]
    ensures Total(refs)[y] > 0
  {
    var n := |refs| - 1;
    assert y in multiset(refs[x]);
    if x < n {
      Held(refs[..n], x, y);
    }
  }

  /** Lists that are as they were or empty hold no more references. */
  lemma {:induction false} Fewer(refs: seq<seq<int>>, refs': seq<seq<int>>, y: int)
    requires |refs'| == |refs| && forall i :: 0 <= i < |refs| ==> refs'[i] == refs[i] || refs'[i] == []
    ensures Total(refs')[y] <= Total(refs)[y]
  {
    if refs != [] {
      var n := |refs| - 1;
      Fewer(refs[..n], refs'[..n], y);
      assert multiset(refs'[n])[y] <= multiset(refs[n])[y];
    }
  }

  // --- the objects that are left

  /** The members of a list that were not released, in order. */
  function Alive(all: seq<int>, freed: set<int>): seq<int> {
    if all == [] then [] else (if all[0] in freed then [] else [all[0]]) + Alive(all[1..], freed)
  }

  lemma {:induction false} AliveIn(all: seq<int>, freed: set<int>, x: int)
    ensures x in Alive(all, freed) <==> x in all && x !in freed
    decreases |all|
  {
    if all != [] {
      AliveIn(all[1..], freed, x);
    }
  }

  lemma {:induction false} AliveSplit(a: seq<int>, b: seq<int>, freed: set<int>)
    ensures Alive(a + b, freed) == Alive(a, freed) + Alive(b, freed)
    decreases |a|
  {
    if a == [] {
      assert a + b == b;
    } else {
      var head := if a[0] in freed then [] else [a[0]];
      AliveSplit(a[1..], b, freed);
      assert (a + b)[1..] == a[1..] + b;
      assert head + (Alive(a[1..], freed) + Alive(b, freed)) == (head + Alive(a[1..], freed)) + Alive(b, freed);
    }
  }

  lemma {:induction false} AliveAll(all: seq<int>)
    ensures Alive(all, {}) == all
    decreases |all|
  {
    if all != [] {
      AliveAll(all[1..]);
    }
  }

  /** Without those that were released before the first that is left. */
  lemma {:induction false} Skip(todo: seq<int>, freed: set<int>) returns (j: int)
    ensures 0 <= j <= |todo| && (forall i :: 0 <= i < j ==> todo[i] in freed)
    ensures if j < |todo| then todo[j] !in freed && Alive(todo, freed) != []
      && Alive(todo, freed)[0] == todo[j] else Alive(todo, freed) == []
    decreases |todo|
  {
    if todo == [] || todo[0] !in freed {
      j := 0;
    } else {
      j := Skip(todo[1..], freed);
      assert forall i :: 1 <= i < j + 1 ==> todo[i] == todo[1..][i - 1];
      j := j + 1;
    }
  }

  /** The one left after a member that is left. */
  lemma AliveNext(all: seq<int>, freed: set<int>, i: int) returns (j: int, at: int)
    requires 0 <= i < |all| && all[i] !in freed
    ensures i < j <= |all| && (forall m :: i < m < j ==> all[m] in freed)
    ensures 0 <= at < |Alive(all, freed)| && Alive(all, freed)[at] == all[i]
    ensures if j < |all| then all[j] !in freed && at + 1 < |Alive(all, freed)|
      && Alive(all, freed)[at + 1] == all[j] else at + 1 == |Alive(all, freed)|
  {
    var a, b := all[..i], all[i + 1..];
    j := Skip(b, freed);
    assert forall m :: i < m < i + 1 + j ==> all[m] == b[m - i - 1];
    at := |Alive(a, freed)|;
    assert all == a + ([all[i]] + b);
    Around(a, all[i], b, freed);
    j := j + i + 1;
  }

  ghost predicate Distinct(s: seq<int>) {
    forall i, j :: 0 <= i < j < |s| ==> s[i] != s[j]
  }

  /** Releasing one more takes it out of the list of those left, at its place. */
  lemma AliveLess(all: seq<int>, freed: set<int>, x: int) returns (k: int)
    requires Distinct(all) && x in all && x !in freed
    ensures 0 <= k < |Alive(all, freed)| && Alive(all, freed)[k] == x
    ensures Alive(all, freed + {x}) == Alive(all, freed)[..k] + Alive(all, freed)[k + 1..]
  {
    hide Alive;
    var i :| 0 <= i < |all| && all[i] == x;
    var a, b := all[..i], all[i + 1..];
    assert all == a + ([x] + b);
    Around(a, x, b, freed);
    Around(a, x, b, freed + {x});
    Unaffected(a, freed, x);
    Unaffected(b, freed, x);
    k := |Alive(a, freed)|;
    Cut(Alive(a, freed), x, Alive(b, freed));
  }

  lemma Cut(a: seq<int>, x: int, b: seq<int>)
    ensures var s := a + ([x] + b); |a| < |s| && s[|a|] == x && s[..|a|] + s[|a| + 1..] == a + ([] + b)
  {
    var s := a + ([x] + b);
    assert s[..|a|] == a && s[|a| + 1..] == b;
  }

  lemma Around(a: seq<int>, x: int, b: seq<int>, freed: set<int>)
    ensures Alive(a + ([x] + b), freed) == Alive(a, freed) + ((if x in freed then [] else [x]) + Alive(b, freed))
  {
    AliveSplit(a, [x] + b, freed);
    assert ([x] + b)[1..] == b;
  }

  lemma {:induction false} Unaffected(all: seq<int>, freed: set<int>, x: int)
    requires x !in all
    ensures Alive(all, freed + {x}) == Alive(all, freed)
    decreases |all|
  {
    if all != [] {
      assert x != all[0];
      Unaffected(all[1..], freed, x);
    }
  }
}
