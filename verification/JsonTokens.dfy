/** What a tokeniser run guarantees: the tokens nest, their sizes count what was created under them, and a run
    that stopped for lack of room can be continued in a larger array. */
module JsonTokens {
  import opened Jsmn

  // --- running out of room

  /** Continuing where the array was full, with more room, is the same as having had that room. */
  lemma {:induction false} Resume(js: string, s: State, n: nat, m: nat)
    requires Sane(s) && n <= m
    ensures var r := Tokenize(js, s, n);
      Tokenize(js, s, m) == if r.code == NoMemory then Tokenize(js, r.st, m) else r
    decreases |js| - s.pos
  {
    hide StepOf;
    if !AtEnd(js, s.pos) {
      StepRoom(js, s, n, m);
      var step := StepOf(js, s, n);
      if step.Go? {
        Resume(js, step.st.(pos := step.st.pos + 1), n, m);
      }
    }
  }

  lemma StepRoom(js: string, s: State, n: nat, m: nat)
    requires Sane(s) && !AtEnd(js, s.pos) && n <= m
    ensures var r := StepOf(js, s, n); r == StepOf(js, s, m) || r == Stop(NoMemory, s)
  {
    hide ScanString, ScanPrimitive, LastOpen, Enclosing;
  }

  /** A token for every character left is enough. */
  lemma {:induction false} Enough(js: string, s: State, n: nat)
    requires Sane(s) && s.pos <= |js| && |s.toks| + |js| - s.pos <= n
    ensures Tokenize(js, s, n).code != NoMemory
    decreases |js| - s.pos
  {
    if !AtEnd(js, s.pos) {
      var step := StepOf(js, s, n);
      if step.Go? {
        Enough(js, step.st.(pos := step.st.pos + 1), n);
      }
    }
  }

  /** Grow the array until the text fits: the outcome is that of one run in an array of any sufficient size. */
  method TokenizeAll(js: string, tokcount: nat) returns (code: Code, p: JsmnParser, tokens: array<Tok>)
    requires tokcount > 0
    ensures fresh(p) && fresh(tokens) && p.Valid(tokens)
    ensures forall m :: |js| <= m && tokcount <= m ==> Outcome(code, p.Abs(tokens)) == Tokenize(js, START, m)
  {
    p := new JsmnParser();
    var count := tokcount;
    tokens := new Tok[count](_ => Tok(PRIMITIVE, 0, 0, 0));
    ghost var first := p.Abs(tokens);
    assert first == START;
    code := p.Parse(js, tokens);
    while code == NoMemory
      invariant fresh(p) && fresh(tokens) && p.Valid(tokens) && tokens.Length == count >= tokcount
      invariant Outcome(code, p.Abs(tokens)) == Tokenize(js, START, count)
      decreases |js| - count
    {
      Fits(js, count);
      Resume(js, START, count, count * 2);
      ghost var s := p.Abs(tokens);
      tokens := Larger(tokens, count * 2);
      count := count * 2;
      assert tokens[..p.toknext] == s.toks;
      code := p.Parse(js, tokens);
    }
    forall m | |js| <= m && tokcount <= m ensures Outcome(code, p.Abs(tokens)) == Tokenize(js, START, m) {
      if count <= m {
        Resume(js, START, count, m);
      } else {
        Fits(js, m);
        Resume(js, START, m, count);
      }
    }
  }

  lemma Fits(js: string, n: nat)
    ensures |js| <= n ==> Tokenize(js, START, n).code != NoMemory
  {
    if |js| <= n {
      Enough(js, START, n);
    }
  }

  /** lv_realloc: the old contents at the front of a larger array. */
  method Larger(a: array<Tok>, n: nat) returns (b: array<Tok>)
    requires a.Length <= n
    ensures fresh(b) && b.Length == n && b[..a.Length] == a[..]
  {
    b := new Tok[n](_ => Tok(PRIMITIVE, 0, 0, 0));
    var i := 0;
    while i < a.Length
      invariant 0 <= i <= a.Length && b[..i] == a[..i] && fresh(b)
    {
      b[i] := a[i];
      i := i + 1;
    }
  }

  // --- tokens nest

  /** Two tokens are apart, or the later one is inside the earlier. */
  predicate Apart(a: Tok, b: Tok) {
    a.start < b.start && (a.end == -1 || a.end <= b.start || (b.end != -1 && b.end <= a.end))
  }

  ghost predicate Nesting(s: State) {
    && (forall i :: 0 <= i < |s.toks| ==> 0 <= s.toks[i].start < s.pos && s.toks[i].end <= s.pos)
    && (forall i :: 0 <= i < |s.toks| ==>
    s.toks[i].start <= s.toks[i].end || (s.toks[i].end == -1 && Container(s.toks[i])))
    && (forall i, j :: 0 <= i < j < |s.toks| ==> Apart(s.toks[i], s.toks[j]))
  }

  lemma NestingStep(js: string, s: State, room: nat)
    requires Sane(s) && !AtEnd(js, s.pos) && Nesting(s)
    ensures var r := StepOf(js, s, room); r.Go? ==> Nesting(r.st.(pos := r.st.pos + 1))
  {
    hide ScanString, ScanPrimitive, Enclosing, LastOpen, Apart;
    var r := StepOf(js, s, room);
    if r.Go? {
      var c := js[s.pos];
      if c == '{' || c == '[' {
        NestingBegin(s, if c == '{' then OBJECT else ARRAY, room);
      } else if c == '}' || c == ']' {
        NestingClose(s, if c == '}' then OBJECT else ARRAY);
      } else if c == '"' {
        var q := ScanString(js, s.pos + 1).p;
        NestingLeaf(s, STRING, s.pos + 1, q, q, room);
      } else if !IsSpace(c) && c != ':' && c != ',' {
        var q := ScanPrimitive(js, s.pos).p;
        NestingLeaf(s, PRIMITIVE, s.pos, q, q - 1, room);
      }
    }
  }

  lemma NestingBegin(s: State, kind: Kind, room: nat)
    requires Sane(s) && Nesting(s) && (kind == OBJECT || kind == ARRAY)
    ensures var r := Begin(s, kind, room); r.Go? ==> Nesting(r.st.(pos := r.st.pos + 1))
  {
    MoreNesting(s, Tok(kind, s.pos, -1, 0), Bump(s.toks, s.super));
  }

  /** One more token, behind the others. */
  lemma MoreNesting(s: State, t: Tok, toks: seq<Tok>)
    requires Nesting(s) && s.pos <= t.start && forall i :: 0 <= i < |s.toks| ==> s.toks[i].start < t.start
    requires |toks| == |s.toks| && forall i :: 0 <= i < |toks| ==>
      toks[i].start == s.toks[i].start && toks[i].end == s.toks[i].end
    ensures forall i, j :: 0 <= i < j < |toks| + 1 ==> Apart((toks + [t])[i], (toks + [t])[j])
  {
    forall i, j | 0 <= i < j < |toks| + 1 ensures Apart((toks + [t])[i], (toks + [t])[j]) {
      if j < |toks| {
        assert Apart(s.toks[i], s.toks[j]);
      }
    }
  }

  lemma NestingClose(s: State, kind: Kind)
    requires Sane(s) && Nesting(s)
    ensures var r := Close(s, kind); r.Go? ==> Nesting(r.st.(pos := r.st.pos + 1))
  {
    var i := LastOpen(s.toks, |s.toks|);
    if i != -1 {
      var t := s.toks[i := s.toks[i].(end := s.pos + 1)];
      forall j, k | 0 <= j < k < |t| ensures Apart(t[j], t[k]) {
        assert Apart(s.toks[j], s.toks[k]);
      }
    }
  }

  lemma NestingLeaf(s: State, kind: Kind, start: int, end: nat, last: nat, room: nat)
    requires Sane(s) && Nesting(s) && s.pos <= start <= end <= last + 1 && start <= last
    ensures var r := Leaf(s, kind, start, end, last, room); r.Go? ==> Nesting(r.st.(pos := r.st.pos + 1))
  {
    var t := Tok(kind, start, end, 0);
    MoreNesting(s, t, Bump(s.toks, s.super));
    assert Bump(s.toks + [t], s.super) == Bump(s.toks, s.super) + [t];
  }

  lemma {:induction false} NestingRun(js: string, s: State, room: nat)
    requires Sane(s) && Nesting(s)
    ensures Nesting(Tokenize(js, s, room).st)
    decreases |js| - s.pos
  {
    hide Nesting, StepOf;
    if !AtEnd(js, s.pos) {
      NestingStep(js, s, room);
      var r := StepOf(js, s, room);
      if r.Go? {
        NestingRun(js, r.st.(pos := r.st.pos + 1), room);
      } else {
        Stops(js, s, room);
      }
    }
  }

  /** A step that ends the run changes nothing. */
  lemma Stops(js: string, s: State, room: nat)
    requires Sane(s) && !AtEnd(js, s.pos) && StepOf(js, s, room).Stop?
    ensures StepOf(js, s, room).st == s
  {
    hide ScanString, ScanPrimitive, Enclosing, LastOpen;
  }

  /** The tokens of a text that parses: all closed, in order of their starts, nested or disjoint. */
  lemma TokensNest(js: string, room: nat)
    requires Tokenize(js, START, room).code == Done
    ensures var toks := Tokenize(js, START, room).st.toks;
      && (forall i :: 0 <= i < |toks| ==> 0 <= toks[i].start <= toks[i].end)
      && (forall i, j :: 0 <= i < j < |toks| ==>
      toks[i].start < toks[j].start && (toks[i].end <= toks[j].start || toks[j].end <= toks[i].end))
  {
    NestingRun(js, START, room);
    DoneClosed(js, START, room);
    var toks := Tokenize(js, START, room).st.toks;
    assert forall i :: 0 <= i < |toks| ==> !Open(toks[i]);
    forall i, j | 0 <= i < j < |toks| ensures toks[i].start < toks[j].start
      && (toks[i].end <= toks[j].start || toks[j].end <= toks[i].end) {
      assert Apart(toks[i], toks[j]);
    }
  }

  lemma {:induction false} DoneClosed(js: string, s: State, room: nat)
    requires Sane(s) && Tokenize(js, s, room).code == Done
    ensures var toks := Tokenize(js, s, room).st.toks; LastOpen(toks, |toks|) == -1
    decreases |js| - s.pos
  {
    if !AtEnd(js, s.pos) {
      var r := StepOf(js, s, room);
      if r.Go? {
        DoneClosed(js, r.st.(pos := r.st.pos + 1), room);
      }
    }
  }

  // --- sizes

  /** The superior of each token that a run creates, in order. */
  ghost function Parents(js: string, s: State, room: nat): seq<int>
    requires Sane(s)
    decreases |js| - s.pos
  {
    if AtEnd(js, s.pos) then []
    else
      match StepOf(js, s, room)
      case Stop(_, _) => []
      case Go(st) => (if |st.toks| > |s.toks| then [s.super] else []) + Parents(js, st.(pos := st.pos + 1), room)
  }

  function Occurs(ps: seq<int>, i: int): nat {
    if ps == [] then 0 else (if ps[0] == i then 1 else 0) + Occurs(ps[1..], i)
  }

  /** How many were created under another. */
  function Below(ps: seq<int>): nat {
    if ps == [] then 0 else (if ps[0] >= 0 then 1 else 0) + Below(ps[1..])
  }

  lemma SizesStep(js: string, s: State, room: nat)
    requires Sane(s) && !AtEnd(js, s.pos)
    ensures var r := StepOf(js, s, room);
      r.Go? ==>
        var n := if |r.st.toks| > |s.toks| then 1 else 0;
        forall i :: 0 <= i < |r.st.toks| ==>
          r.st.toks[i].size == if i == |s.toks| then 0 else s.toks[i].size + if i == s.super then n else 0
  {
    hide ScanString, ScanPrimitive, Enclosing, LastOpen;
  }

  /** Each token's size is the number of tokens that were created under it. */
  lemma {:induction false} SizesRun(js: string, s: State, room: nat)
    requires Sane(s)
    ensures var toks := Tokenize(js, s, room).st.toks; var ps := Parents(js, s, room);
      && |toks| == |s.toks| + |ps| && (forall k :: 0 <= k < |ps| ==> -1 <= ps[k] < |s.toks| + k)
      && forall i :: 0 <= i < |toks| ==> toks[i].size == (if i < |s.toks| then s.toks[i].size else 0) + Occurs(ps, i)
    decreases |js| - s.pos
  {
    hide StepOf;
    if !AtEnd(js, s.pos) {
      SizesStep(js, s, room);
      var r := StepOf(js, s, room);
      if r.Go? {
        var next := r.st.(pos := r.st.pos + 1);
        SizesRun(js, next, room);
        var ps := Parents(js, next, room);
        if |next.toks| > |s.toks| {
          assert ([s.super] + ps)[1..] == ps;
        } else {
          assert [] + ps == ps;
        }
      } else {
        Stops(js, s, room);
      }
    }
  }

  function SumSizes(toks: seq<Tok>): nat {
    if toks == [] then 0 else SumSizes(toks[..|toks| - 1]) + toks[|toks| - 1].size
  }

  lemma {:induction false} SumOccurs(toks: seq<Tok>, ps: seq<int>)
    requires forall i :: 0 <= i < |toks| ==> toks[i].size == Occurs(ps, i)
    ensures SumSizes(toks) == Within(ps, |toks|)
  {
    if toks != [] {
      var n := |toks| - 1;
      SumOccurs(toks[..n], ps);
      OneMore(ps, n);
    } else {
      NoneWithin(ps);
    }
  }

  /** How many are in 0 .. n. */
  function Within(ps: seq<int>, n: nat): nat {
    if ps == [] then 0 else (if 0 <= ps[0] < n then 1 else 0) + Within(ps[1..], n)
  }

  lemma {:induction false} OneMore(ps: seq<int>, n: nat)
    ensures Within(ps, n + 1) == Within(ps, n) + Occurs(ps, n)
  {
    if ps != [] {
      OneMore(ps[1..], n);
    }
  }

  lemma NoneWithin(ps: seq<int>)
    ensures Within(ps, 0) == 0
  {
  }

  lemma AllWithin(ps: seq<int>, n: nat)
    requires forall k :: 0 <= k < |ps| ==> ps[k] < n
    ensures Within(ps, n) == Below(ps)
  {
  }

  /** The sizes of all tokens add up to the number of tokens created under another. */
  lemma SizesAddUp(js: string, room: nat)
    ensures SumSizes(Tokenize(js, START, room).st.toks) == Below(Parents(js, START, room))
  {
    SizesRun(js, START, room);
    var toks, ps := Tokenize(js, START, room).st.toks, Parents(js, START, room);
    SumOccurs(toks, ps);
    AllWithin(ps, |toks|);
  }
}
