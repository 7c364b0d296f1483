/** Decoding the tokens of an encoded value, and the round trip. */
module JsonLevel {
  import opened Json
  import opened Jsmn
  import opened JsonTokens
  import opened JsonDecode
  import opened JsonRoundTrip

  // --- which values survive

  /** Numbers that keep their kind: an integer with no point in the text from it on, a floating-point number
      with one in it or after it. Everything else always survives. */
  predicate Exact(js: string, p: nat, j: Json)
    decreases j, 0
  {
    match j
    case Int(_) => !PointAfter(js, p)
    case Float(_) => PointAfter(js, p)
    case Array(items) => ExactItems(js, p + 1, items)
    case Table(members) => ExactMembers(js, p + 1, members)
    case _ => true
  }

  predicate ExactItems(js: string, p: nat, items: seq<Json>)
    decreases items, 1
  {
    items == [] || (Exact(js, p, items[0]) && ExactItems(js, p + |Print(items[0])| + 1, items[1..]))
  }

  predicate ExactMembers(js: string, p: nat, members: seq<Member>)
    decreases members, 1
  {
    members == []
      || (ExactMember(js, p, members[0]) && ExactMembers(js, p + |PrintMember(members[0])| + 1, members[1..]))
  }

  predicate ExactMember(js: string, p: nat, m: Member)
    decreases m, 1
  {
    Exact(js, p + |Print(m.key)| + 1, m.val)
  }

  // --- one token

  lemma {:induction false} DigitsBack(js: string, p: nat, n: nat)
    requires Starts(js, p, Decimal(n))
    ensures DigitRun(js, p, 0) == DigitRun(js, p + |Decimal(n)|, n)
    decreases n
  {
    var t := Decimal(n);
    if n < 10 {
      assert js[p] == js[p..p + 1][0] == Digit(n);
    } else {
      SplitStarts(js, p, Decimal(n / 10), [Digit(n % 10)]);
      DigitsBack(js, p, n / 10);
      var q := p + |Decimal(n / 10)|;
      assert js[q] == js[q..q + 1][0] == Digit(n % 10);
      assert DigitRun(js, q, n / 10) == DigitRun(js, q + 1, n);
    }
  }

  lemma IntBack(js: string, p: nat, i: int)
    requires Starts(js, p, IntText(i)) && Follows(js, p + |IntText(i)|)
    ensures IntegerAt(js, p) == i
  {
    hide Decimal;
    var t := IntText(i);
    var q := p + |t|;
    assert forall m: nat :: DigitRun(js, q, m) == m;
    assert js[p] == t[0];
    if i < 0 {
      SplitStarts(js, p, "-", Decimal(-i));
      DigitsBack(js, p + 1, -i);
    } else {
      DigitsBack(js, p, i);
    }
  }

  /** A word or number reads back as itself if it is exact, as something else if not. */
  lemma PrimitiveBack(js: string, p: nat, j: Json)
    requires Clean(j) && !j.Str? && !IsContainer(j) && Starts(js, p, Print(j)) && Follows(js, p + |Print(j)|)
    ensures Primitive(js, p, p + |Print(j)|) == j <==> Exact(js, p, j)
  {
    hide PointAfter, IntegerAt, Decimal, IntText;
    var t := Print(j);
    assert forall k :: 0 <= k < |t| ==> js[p + k] == t[k];
    match j {
      case Int(i) =>
        NoWord(js, p, t);
        IntBack(js, p, i);
      case Float(text) => NoWord(js, p, t);
      case Null =>
        Spelt(js, p, "null");
        assert "true"[0] == 't' && js[p + 0] == t[0];
      case Bool(b) => Spelt(js, p, t);
    }
  }

  lemma Spelt(js: string, p: nat, w: string)
    requires Starts(js, p, w) && forall k :: 0 <= k < |w| ==> 'a' <= w[k] <= 'z'
    ensures Word(js, p, p + |w|, w)
  {
    forall k | 0 <= k < |w| ensures Lower(js[p + k]) == w[k] {
      assert js[p + k] == js[p..p + |w|][k];
    }
  }

  lemma NoWord(js: string, p: nat, t: string)
    requires Starts(js, p, t) && NumberText(t)
    ensures var q := p + |t|; !Word(js, p, q, "false") && !Word(js, p, q, "true") && !Word(js, p, q, "null")
  {
    var q := p + |t|;
    assert forall k :: 0 <= k < |t| ==> js[p + k] == js[p..q][k];
    if |t| == 5 {
      assert Lower(t[2]) != "false"[2];
    }
    if |t| == 4 {
      assert Lower(t[0]) != "true"[0] && Lower(t[1]) != "null"[1];
    }
  }

  // --- all tokens of a value

  predicate Has(toks: seq<Tok>, t: nat, more: seq<Tok>) {
    t + |more| <= |toks| && toks[t..t + |more|] == more
  }

  lemma SplitHas(toks: seq<Tok>, t: nat, a: seq<Tok>, b: seq<Tok>)
    requires Has(toks, t, a + b)
    ensures Has(toks, t, a) && Has(toks, t + |a|, b)
  {
    assert toks[t..t + |a|] == (a + b)[..|a|];
    assert toks[t + |a|..t + |a| + |b|] == (a + b)[|a|..];
  }

  /** Decoding takes exactly a value's tokens, and gives the value back exactly when it is exact. */
  lemma {:induction false} LevelValue(js: string, toks: seq<Tok>, t: nat, j: Json, p: nat)
    requires Written(js, toks) && Has(toks, t, Tokens(j, p)) && Clean(j) && Starts(js, p, Print(j))
      && Follows(js, p + |Print(j)|)
    ensures var r := Level(js, toks, t); r.Value? && r.n == |Tokens(j, p)| && (r.j == j <==> Exact(js, p, j))
    decreases j, 0
  {
    hide Primitive, PointAfter, Follows, LevelItems, LevelMembers, ItemTokens, MemberTokens, ExactItems, ExactMembers,
      CleanItems, CleanMembers, Keys,
      IntText, WordChar, Word;
    assert toks[t] == Tokens(j, p)[0];
    match j {
      case Str(s) => TextBack(js, p, s);
      case Array(items) => LevelArray(js, toks, t, j, p);
      case Table(members) => LevelTable(js, toks, t, j, p);
      case _ => PrimitiveBack(js, p, j);
    }
  }

  lemma {:induction false} LevelArray(js: string, toks: seq<Tok>, t: nat, j: Json, p: nat)
    requires Written(js, toks) && Has(toks, t, Tokens(j, p)) && j.Array? && Clean(j) && Starts(js, p, Print(j))
    ensures var r := Level(js, toks, t); r.Value? && r.n == |Tokens(j, p)| && (r.j == j <==> Exact(js, p, j))
    decreases j.items, 2
  {
    hide LevelItems, ItemTokens, ExactItems, CleanItems, PrintItems;
    assert toks[t] == Tokens(j, p)[0];
    assert Print(j) == "[" + (PrintItems(j.items) + "]");
    SplitStarts(js, p, "[", PrintItems(j.items) + "]");
    SplitHas(toks, t, [Tokens(j, p)[0]], ItemTokens(j.items, p + 1));
    LevelItemsAre(js, toks, t + 1, j.items, [], 1, p + 1);
    assert [] + j.items == j.items;
  }

  lemma {:induction false} LevelTable(js: string, toks: seq<Tok>, t: nat, j: Json, p: nat)
    requires Written(js, toks) && Has(toks, t, Tokens(j, p)) && j.Table? && Clean(j) && Starts(js, p, Print(j))
    ensures var r := Level(js, toks, t); r.Value? && r.n == |Tokens(j, p)| && (r.j == j <==> Exact(js, p, j))
    decreases j.members, 3
  {
    hide LevelMembers, MemberTokens, ExactMembers, CleanMembers, PrintMembers, Keys;
    assert toks[t] == Tokens(j, p)[0];
    assert Print(j) == "{" + (PrintMembers(j.members) + "}");
    SplitStarts(js, p, "{", PrintMembers(j.members) + "}");
    SplitHas(toks, t, [Tokens(j, p)[0]], MemberTokens(j.members, p + 1));
    LevelMembersAre(js, toks, t + 1, j.members, [], 1, p + 1);
    assert [] + j.members == j.members;
  }

  lemma TextBack(js: string, p: nat, s: string)
    requires Starts(js, p, Print(Str(s)))
    ensures js[p + 1..p + 1 + |s|] == s
  {
    assert Print(Str(s)) == "\"" + (s + "\"");
    SplitStarts(js, p, "\"", s + "\"");
    SplitStarts(js, p + 1, s, "\"");
  }

  lemma {:induction false} LevelItemsAre(js: string, toks: seq<Tok>, t: nat, items: seq<Json>, acc: seq<Json>, n: nat,
      p: nat)
    requires Written(js, toks) && Has(toks, t, ItemTokens(items, p)) && CleanItems(items)
      && Starts(js, p, PrintItems(items) + "]")
    ensures t <= |toks|
    ensures var r := LevelItems(js, toks, t, |items|, acc, n);
      && r.Value? && r.n == n + |ItemTokens(items, p)| && r.j.Array? && acc <= r.j.items
      && |r.j.items| == |acc| + |items|
      && (r.j == Array(acc + items) <==> ExactItems(js, p, items))
    decreases items, 1
  {
    hide Level, Exact, Tokens, Print, Clean, Starts, Follows;
    if items == [] {
      assert acc + items == acc;
    } else {
      ItemText(js, p, items);
      var q := p + |Print(items[0])| + 1;
      var rest := items[1..];
      SplitHas(toks, t, Tokens(items[0], p), ItemTokens(rest, q));
      LevelValue(js, toks, t, items[0], p);
      var v := Level(js, toks, t).j;
      var m := |Tokens(items[0], p)|;
      if rest == [] {
        NoItems(js, toks, t + m, acc + [v], n + m, q);
        assert acc + items == acc + [items[0]];
      } else {
        LevelItemsAre(js, toks, t + m, rest, acc + [v], n + m, q);
        assert acc + items == acc + [items[0]] + rest;
      }
      FirstItem(acc, v, items, LevelItems(js, toks, t, |items|, acc, n).j.items);
    }
  }

  lemma NoItems(js: string, toks: seq<Tok>, t: nat, acc: seq<Json>, n: nat, q: nat)
    requires Written(js, toks) && t <= |toks|
    ensures LevelItems(js, toks, t, 0, acc, n) == Value(Array(acc), n) && ItemTokens([], q) == []
      && ExactItems(js, q, [])
  {
  }

  lemma FirstItem<T>(acc: seq<T>, v: T, items: seq<T>, r: seq<T>)
    requires items != [] && acc + [v] <= r && |r| == |acc| + |items|
    ensures r == acc + items <==> v == items[0] && r == acc + [v] + items[1..]
  {
    assert r[|acc|] == (acc + [v])[|acc|] == v;
    assert acc + items == acc + [items[0]] + items[1..];
  }

  // --- tables

  predicate NewKeys(acc: seq<Member>, members: seq<Member>) {
    forall k, l :: 0 <= k < |acc| && 0 <= l < |members| ==> acc[k].key != members[l].key
  }

  lemma SetNew(acc: seq<Member>, members: seq<Member>, v: Json)
    requires members != [] && Keys(members) && NewKeys(acc, members)
    ensures var m := Member(members[0].key, v);
      RawSet(acc, members[0].key, v) == acc + [m] && Keys(members[1..]) && NewKeys(acc + [m], members[1..])
  {
  }

  lemma {:induction false} LevelMembersAre(js: string, toks: seq<Tok>, t: nat, members: seq<Member>, acc: seq<Member>,
      n: nat, p: nat)
    requires Written(js, toks) && Has(toks, t, MemberTokens(members, p)) && CleanMembers(members)
      && Starts(js, p, PrintMembers(members) + "}")
    requires Keys(members) && NewKeys(acc, members)
    ensures t <= |toks|
    ensures var r := LevelMembers(js, toks, t, |members|, acc, n);
      && r.Value? && r.n == n + |MemberTokens(members, p)| && r.j.Table? && acc <= r.j.members
      && |r.j.members| == |acc| + |members|
      && (r.j == Table(acc + members) <==> ExactMembers(js, p, members))
    decreases members, 2
  {
    hide LevelMember, ExactMember, PairTokens, PrintMember, CleanMember, Starts, Follows, RawSet, Keys, NewKeys;
    if members == [] {
      assert acc + members == acc;
    } else {
      MembersText(js, p, members);
      var q := p + |PrintMember(members[0])| + 1;
      var rest := members[1..];
      SplitHas(toks, t, PairTokens(members[0], p), MemberTokens(rest, q));
      LevelMemberIs(js, toks, t, members[0], p);
      var v := LevelMember(js, toks, t).val;
      var m := |PairTokens(members[0], p)|;
      SetNew(acc, members, v);
      var pair := Member(members[0].key, v);
      if rest == [] {
        NoMembers(js, toks, t + m, acc + [pair], n + m, q);
        assert acc + members == acc + [members[0]];
      } else {
        LevelMembersAre(js, toks, t + m, rest, acc + [pair], n + m, q);
        assert acc + members == acc + [members[0]] + rest;
      }
      FirstItem(acc, pair, members, LevelMembers(js, toks, t, |members|, acc, n).j.members);
    }
  }

  lemma NoMembers(js: string, toks: seq<Tok>, t: nat, acc: seq<Member>, n: nat, q: nat)
    requires Written(js, toks) && t <= |toks|
    ensures LevelMembers(js, toks, t, 0, acc, n) == Value(Table(acc), n) && MemberTokens([], q) == []
      && ExactMembers(js, q, [])
  {
  }

  lemma {:induction false} LevelMemberIs(js: string, toks: seq<Tok>, t: nat, m: Member, p: nat)
    requires Written(js, toks) && Has(toks, t, PairTokens(m, p)) && CleanMember(m) && Starts(js, p, PrintMember(m))
      && Follows(js, p + |PrintMember(m)|)
    ensures t <= |toks|
    ensures var r := LevelMember(js, toks, t);
      r.Pair? && r.n == |PairTokens(m, p)| && r.key == m.key && (r.val == m.val <==> ExactMember(js, p, m))
    decreases m, 1
  {
    hide Tokens, Follows, Clean, Exact;
    MemberText(js, p, m);
    KeyText(m);
    TextBack(js, p, m.key.s);
    SplitHas(toks, t, [PairTokens(m, p)[0]], Tokens(m.val, p + |Print(m.key)| + 1));
    assert toks[t] == PairTokens(m, p)[0];
    assert Level(js, toks, t) == Value(m.key, 1);
    LevelValue(js, toks, t + 1, m.val, p + |Print(m.key)| + 1);
  }

  // --- the round trip

  /** The tokens of an encoded value are one for each value and key. */
  lemma TokenizePrint(j: Json)
    requires Clean(j)
    ensures var r := Tokenize(Print(j), START, |Print(j)| + 32); r.code == Done && r.st.toks == Tokens(j, 0)
  {
    hide Tokenize, StepOf, Print, Tokens, Clean;
    var js := Print(j);
    var room := |js| + 32 + |Tokens(j, 0)|;
    ParseValue(js, room, START, j);
    Fits(js, |js| + 32);
    Resume(js, START, |js| + 32, room);
    TokensClosed(j, 0);
    Ended(js, room, After(START, j));
    assert [] + Tokens(j, 0) == Tokens(j, 0);
  }

  lemma Ended(js: string, room: nat, s: State)
    requires Sane(s) && s.pos >= |js| && AllClosed(s.toks)
    ensures Tokenize(js, s, room) == Outcome(Done, s)
  {
  }

  /** Decoding what was encoded is the identity on every tree whose numbers keep their kind, and only there. */
  lemma RoundTripIff(j: Json)
    requires Clean(j)
    ensures DecodeText(Print(j)) == Got(j) <==> Exact(Print(j), 0, j)
  {
    hide Tokenize, Level, Print, Tokens, Clean, Exact;
    var js := Print(j);
    TokenizePrint(j);
    AllWritten(js, |js| + 32);
    assert Tokens(j, 0)[0..0 + |Tokens(j, 0)|] == Tokens(j, 0) && js[0..0 + |js|] == js;
    LevelValue(js, Tokens(j, 0), 0, j, 0);
  }

  // --- when that is

  /** Neither integers nor floating-point numbers. */
  predicate NumberFree(j: Json)
    decreases j, 0
  {
    match j
    case Int(_) => false
    case Float(_) => false
    case Array(items) => forall k :: 0 <= k < |items| ==> NumberFree(items[k])
    case Table(members) => forall k :: 0 <= k < |members| ==> MemberNumberFree(members[k])
    case _ => true
  }

  predicate MemberNumberFree(m: Member)
    decreases m, 1
  {
    NumberFree(m.val)
  }

  lemma {:induction false} NumberFreeExact(js: string, p: nat, j: Json)
    requires NumberFree(j)
    ensures Exact(js, p, j)
    decreases j, 0
  {
    match j {
      case Array(items) => NumberFreeItems(js, p + 1, items);
      case Table(members) => NumberFreeMembers(js, p + 1, members);
      case _ =>
    }
  }

  lemma {:induction false} NumberFreeItems(js: string, p: nat, items: seq<Json>)
    requires forall k :: 0 <= k < |items| ==> NumberFree(items[k])
    ensures ExactItems(js, p, items)
    decreases items, 1
  {
    if items != [] {
      NumberFreeExact(js, p, items[0]);
      NumberFreeItems(js, p + |Print(items[0])| + 1, items[1..]);
    }
  }

  lemma {:induction false} NumberFreeMembers(js: string, p: nat, members: seq<Member>)
    requires forall k :: 0 <= k < |members| ==> MemberNumberFree(members[k])
    ensures ExactMembers(js, p, members)
    decreases members, 2
  {
    if members != [] {
      NumberFreeMember(js, p, members[0]);
      NumberFreeMembers(js, p + |PrintMember(members[0])| + 1, members[1..]);
    }
  }

  lemma {:induction false} NumberFreeMember(js: string, p: nat, m: Member)
    requires MemberNumberFree(m)
    ensures ExactMember(js, p, m)
    decreases m, 1
  {
    NumberFreeExact(js, p + |Print(m.key)| + 1, m.val);
  }

  /** Trees of null, booleans, strings, arrays and tables come back. */
  lemma RoundTrip(j: Json)
    requires Clean(j) && NumberFree(j)
    ensures DecodeText(Print(j)) == Got(j)
  {
    NumberFreeExact(Print(j), 0, j);
    RoundTripIff(j);
  }

  /** An integer does not, if a string with a point follows it: [1, "."] comes back with a floating-point 1. */
  lemma PointTurnsIntegers()
    ensures var j := Array([Int(1), Str(".")]); Clean(j) && Print(j) == "[1,\".\"]" && DecodeText(Print(j)) != Got(j)
  {
    var items := [Int(1), Str(".")];
    var j := Array(items);
    assert items[1..] == [Str(".")];
    assert [Str(".")][1..] == [];
    assert CleanItems([]) && Clean(Str(".")) && CleanItems([Str(".")]);
    assert Print(Int(1)) == "1" by {
      assert Decimal(1) == ['1'];
    }
    assert PrintItems([Str(".")]) == "\".\"";
    assert Print(j) == "[1,\".\"]";
    var js := "[1,\".\"]";
    assert PointAfter(js, 4);
    assert PointAfter(js, 3) && PointAfter(js, 2) && PointAfter(js, 1);
    RoundTripIff(j);
  }

  /** Encode and decode with the methods that do it. */
  method EncodeDecode(j: Json) returns (r: Result)
    requires Clean(j) && Keyed(j)
    ensures r == Got(j) <==> Exact(Print(j), 0, j)
  {
    var out := new JsonBuffer();
    out.DescentLevel(j);
    assert out.dest == Print(j);
    r := JsonDecodeText(out.dest);
    RoundTripIff(j);
  }
}
