/** Encoding and decoding: the text of a value is tokenised into one token for each value and key, in the
    order of the text, and decoding gives the value back exactly when its numbers keep their kind. */
module JsonRoundTrip {
  import opened Json
  import opened Jsmn
  import opened JsonTokens
  import opened JsonDecode

  // --- pieces of text

  predicate Starts(js: string, p: nat, t: string) {
    p + |t| <= |js| && js[p..p + |t|] == t
  }

  lemma SplitStarts(js: string, p: nat, a: string, b: string)
    requires Starts(js, p, a + b)
    ensures Starts(js, p, a) && Starts(js, p + |a|, b)
  {
    assert js[p..p + |a|] == (a + b)[..|a|];
    assert js[p + |a|..p + |a| + |b|] == (a + b)[|a|..];
  }

  /** What may follow a value. */
  predicate Follows(js: string, p: nat) {
    AtEnd(js, p) || Ends(js[p])
  }

  predicate WordChar(c: char) {
    32 as char < c < 127 as char && !Ends(c) && c != '"' && c != '{' && c != '['
  }

  lemma {:induction false} ScanWord(js: string, p: nat, t: string)
    requires Starts(js, p, t) && Follows(js, p + |t|) && forall k :: 0 <= k < |t| ==> WordChar(t[k])
    ensures ScanPrimitive(js, p) == Found(p + |t|)
    decreases |t|
  {
    if t != [] {
      assert js[p] == t[0];
      assert js[p + 1..p + |t|] == t[1..];
      ScanWord(js, p + 1, t[1..]);
    }
  }

  lemma {:induction false} ScanPlain(js: string, p: nat, s: string)
    requires Starts(js, p, s + "\"") && PlainText(s)
    ensures ScanString(js, p) == Found(p + |s|)
    decreases |s|
  {
    SplitStarts(js, p, s, "\"");
    if s == [] {
      assert js[p] == '"';
    } else {
      assert js[p] == s[0] && Plain(s[0]);
      assert s + "\"" == [s[0]] + (s[1..] + "\"");
      SplitStarts(js, p, [s[0]], s[1..] + "\"");
      ScanPlain(js, p + 1, s[1..]);
    }
  }

  // --- the tokens of a value

  function Tokens(j: Json, p: nat): (toks: seq<Tok>)
    ensures |toks| > 0
    decreases j, 0
  {
    match j
    case Str(s) => [Tok(STRING, p + 1, p + 1 + |s|, 0)]
    case Array(items) => [Tok(ARRAY, p, p + |Print(j)|, |items|)] + ItemTokens(items, p + 1)
    case Table(members) => [Tok(OBJECT, p, p + |Print(j)|, |members|)] + MemberTokens(members, p + 1)
    case _ => [Tok(PRIMITIVE, p, p + |Print(j)|, 0)]
  }

  function ItemTokens(items: seq<Json>, p: nat): seq<Tok>
    decreases items, 1
  {
    if items == [] then [] else Tokens(items[0], p) + ItemTokens(items[1..], p + |Print(items[0])| + 1)
  }

  function MemberTokens(members: seq<Member>, p: nat): seq<Tok>
    decreases members, 1
  {
    if members == [] then []
    else PairTokens(members[0], p) + MemberTokens(members[1..], p + |PrintMember(members[0])| + 1)
  }

  /** A key has one token under it: its value. */
  function PairTokens(m: Member, p: nat): seq<Tok>
    decreases m, 1
  {
    [Tok(STRING, p + 1, p + |Print(m.key)| - 1, 1)] + Tokens(m.val, p + |Print(m.key)| + 1)
  }

  predicate AllClosed(toks: seq<Tok>) {
    forall k :: 0 <= k < |toks| ==> !Open(toks[k])
  }

  lemma {:induction false} TokensClosed(j: Json, p: nat)
    requires Clean(j)
    ensures AllClosed(Tokens(j, p))
    decreases j, 0
  {
    match j {
      case Array(items) => ItemsClosed(items, p + 1);
      case Table(members) => MembersClosed(members, p + 1);
      case _ =>
    }
  }

  lemma {:induction false} ItemsClosed(items: seq<Json>, p: nat)
    requires CleanItems(items)
    ensures AllClosed(ItemTokens(items, p))
    decreases items, 1
  {
    if items != [] {
      TokensClosed(items[0], p);
      ItemsClosed(items[1..], p + |Print(items[0])| + 1);
    }
  }

  lemma {:induction false} MembersClosed(members: seq<Member>, p: nat)
    requires CleanMembers(members)
    ensures AllClosed(MemberTokens(members, p))
    decreases members, 1
  {
    if members != [] {
      PairClosed(members[0], p);
      MembersClosed(members[1..], p + |PrintMember(members[0])| + 1);
    }
  }

  lemma {:induction false} PairClosed(m: Member, p: nat)
    requires CleanMember(m)
    ensures AllClosed(PairTokens(m, p))
    decreases m, 1
  {
    TokensClosed(m.val, p + |Print(m.key)| + 1);
  }

  // --- tokenising the text of a value

  predicate IsContainer(j: Json) {
    j.Array? || j.Table?
  }

  /** The state after a value was read. */
  function After(s: State, j: Json): (s': State)
    requires Sane(s)
    ensures Sane(s') && |s'.toks| == |s.toks| + |Tokens(j, s.pos)|
  {
    State(s.pos + |Print(j)|, Bump(s.toks, s.super) + Tokens(j, s.pos),
      if IsContainer(j) then LastOpen(s.toks, |s.toks|) else s.super)
  }

  /** Strings and words are closed when they are created. */
  predicate OpenContainers(toks: seq<Tok>) {
    forall k :: 0 <= k < |toks| && Open(toks[k]) ==> Container(toks[k])
  }

  /** Two states from which the run goes on alike. */
  ghost predicate Leads(js: string, room: nat, s: State, s': State)
    requires Sane(s) && Sane(s')
  {
    Tokenize(js, s, room) == Tokenize(js, s', room)
  }

  lemma LeadsStep(js: string, room: nat, s: State)
    requires Sane(s) && !AtEnd(js, s.pos) && StepOf(js, s, room).Go?
    ensures var st := StepOf(js, s, room).st; Sane(st.(pos := st.pos + 1)) && Leads(js, room, s, st.(pos := st.pos + 1))
  {
  }

  /** Numbers, words and strings are one token. */
  lemma ParseWord(js: string, room: nat, s: State, j: Json)
    requires Sane(s) && Starts(js, s.pos, Print(j)) && Follows(js, s.pos + |Print(j)|) && |s.toks| < room && !j.Str?
      && !IsContainer(j)
    requires Print(j) != "" && forall k :: 0 <= k < |Print(j)| ==> WordChar(Print(j)[k])
    ensures Leads(js, room, s, After(s, j))
  {
    var t := Print(j);
    assert js[s.pos] == t[0];
    ScanWord(js, s.pos, t);
    LeadsStep(js, room, s);
    var tok := Tok(PRIMITIVE, s.pos, s.pos + |t|, 0);
    assert Bump(s.toks + [tok], s.super) == Bump(s.toks, s.super) + [tok];
  }

  lemma ParseText(js: string, room: nat, s: State, j: Json)
    requires Sane(s) && Starts(js, s.pos, Print(j)) && |s.toks| < room && j.Str? && PlainText(j.s)
    ensures Leads(js, room, s, After(s, j))
  {
    hide Tokenize, ScanString, ScanPrimitive, LastOpen, Enclosing;
    assert Print(j) == "\"" + (j.s + "\"");
    SplitStarts(js, s.pos, "\"", j.s + "\"");
    assert js[s.pos] == '"';
    ScanPlain(js, s.pos + 1, j.s);
    LeadsStep(js, room, s);
    var tok := Tok(STRING, s.pos + 1, s.pos + 1 + |j.s|, 0);
    assert Bump(s.toks + [tok], s.super) == Bump(s.toks, s.super) + [tok];
  }

  lemma WordChars(j: Json)
    requires Clean(j) && !j.Str? && !IsContainer(j)
    ensures Print(j) != "" && forall k :: 0 <= k < |Print(j)| ==> WordChar(Print(j)[k])
  {
  }

  // --- arrays

  /** Token `a` is the innermost open one. */
  predicate Inside(toks: seq<Tok>, a: int, kind: Kind) {
    0 <= a < |toks| && LastOpen(toks, |toks|) == a && toks[a].kind == kind && OpenContainers(toks)
  }

  function Sized(toks: seq<Tok>, a: int, n: nat): (r: seq<Tok>)
    requires 0 <= a < |toks|
    ensures |r| == |toks|
  {
    toks[a := toks[a].(size := toks[a].size + n)]
  }

  /** The state after the rest of a bracket's contents and the bracket itself. */
  function Shut(s: State, a: int, n: nat, len: nat, more: seq<Tok>): (s': State)
    requires Sane(s) && 0 <= a < |s.toks|
    ensures Sane(s')
  {
    var toks := Sized(s.toks, a, n);
    State(s.pos + len + 1, toks[a := toks[a].(end := s.pos + len + 1)] + more, LastOpen(s.toks, a))
  }

  /** At the closing bracket. */
  lemma AtBracket(js: string, room: nat, s: State, a: int, kind: Kind)
    requires Sane(s) && Inside(s.toks, a, kind) && !AtEnd(js, s.pos)
    requires (kind == ARRAY && js[s.pos] == ']') || (kind == OBJECT && js[s.pos] == '}')
    ensures Leads(js, room, s, Shut(s, a, 0, 0, []))
  {
    hide Tokenize, ScanString, ScanPrimitive, Enclosing;
    LeadsStep(js, room, s);
    var toks := s.toks[a := s.toks[a].(end := s.pos + 1)];
    SameOpen(s.toks, toks, a);
    assert Sized(s.toks, a, 0) == s.toks && toks + [] == toks;
  }

  /** Open tokens are found alike in sequences that are open in the same places. */
  lemma {:induction false} SameOpen(toks: seq<Tok>, toks': seq<Tok>, n: nat)
    requires n <= |toks| && n <= |toks'| && forall k :: 0 <= k < n ==> Open(toks[k]) == Open(toks'[k])
    ensures LastOpen(toks, n) == LastOpen(toks', n)
    decreases n
  {
    if n > 0 {
      SameOpen(toks, toks', n - 1);
    }
  }

  /** Closed tokens at the end, and sizes, do not matter. */
  lemma InsideStill(toks: seq<Tok>, toks': seq<Tok>, more: seq<Tok>, a: int, kind: Kind)
    requires Inside(toks, a, kind) && |toks'| == |toks| && AllClosed(more)
    requires forall k :: 0 <= k < |toks| ==> toks'[k].kind == toks[k].kind && Open(toks'[k]) == Open(toks[k])
    ensures Inside(toks' + more, a, kind)
  {
    SameOpen(toks, toks' + more, |toks|);
    ClosedTail(toks', more, |more|);
  }

  lemma {:induction false} ClosedTail(toks: seq<Tok>, more: seq<Tok>, n: nat)
    requires AllClosed(more) && n <= |more|
    ensures LastOpen(toks + more, |toks| + n) == LastOpen(toks + more, |toks|)
    decreases n
  {
    if n > 0 {
      ClosedTail(toks, more, n - 1);
      assert (toks + more)[|toks| + n - 1] == more[n - 1];
    }
  }
  /** Reading a value, wherever it stands, adds its tokens and counts it under the superior. */
  lemma {:induction false} ParseValue(js: string, room: nat, s: State, j: Json)
    requires Sane(s) && Clean(j) && Starts(js, s.pos, Print(j)) && Follows(js, s.pos + |Print(j)|)
      && OpenContainers(s.toks)
    requires |s.toks| + |Tokens(j, s.pos)| <= room
    ensures Leads(js, room, s, After(s, j))
    decreases j, 0
  {
    hide Tokenize, StepOf, After, LastOpen;
    match j {
      case Str(t) => ParseText(js, room, s, j);
      case Array(items) => ParseArray(js, room, s, j);
      case Table(members) => ParseTable(js, room, s, j);
      case _ =>
        WordChars(j);
        ParseWord(js, room, s, j);
    }
  }


  /** What is still to come of a bracket after its first entry is what was to come before it. */
  lemma ShutStep(s: State, s1: State, a: int, n: nat, d: nat, len: nat, first: seq<Tok>, more: seq<Tok>)
    requires Sane(s) && Sane(s1) && 0 <= a < |s.toks| && s1.toks == Sized(s.toks, a, 1) + first && s1.pos == s.pos + d
    ensures Shut(s1, a, n, len, more) == Shut(s, a, n + 1, d + len, first + more)
  {
    SameOpen(s.toks, s1.toks, a);
    var end := s1.pos + len + 1;
    var t1 := Sized(s1.toks, a, n);
    var t := Sized(s.toks, a, n + 1);
    assert t1[a := t1[a].(end := end)] + more == t[a := t[a].(end := end)] + (first + more);
  }

  /** A comma in an array or table. */
  lemma AtComma(js: string, room: nat, s: State, a: int, kind: Kind)
    requires Sane(s) && Inside(s.toks, a, kind) && !AtEnd(js, s.pos) && js[s.pos] == ','
      && (kind == ARRAY || kind == OBJECT)
    requires s.super == a || (s.super >= 0 && !Container(s.toks[s.super]))
    ensures Sane(s.(super := a)) && Leads(js, room, s, State(s.pos + 1, s.toks, a))
  {
    hide Tokenize, ScanString, ScanPrimitive;
    EnclosingIs(s.toks, |s.toks|, a, s.super);
    LeadsStep(js, room, s);
  }

  lemma {:induction false} EnclosingIs(toks: seq<Tok>, n: nat, a: int, super: int)
    requires n <= |toks| && LastOpen(toks, n) == a >= 0 && OpenContainers(toks) && -1 <= super < |toks|
    ensures Enclosing(toks, n, super) == a
    decreases n
  {
    if !Open(toks[n - 1]) {
      EnclosingIs(toks, n - 1, a, super);
    }
  }

  /** The items of an array, from any one on, and its closing bracket. */
  lemma {:induction false} ParseItems(js: string, room: nat, s: State, a: int, items: seq<Json>)
    requires Sane(s) && Inside(s.toks, a, ARRAY) && s.super == a && CleanItems(items)
      && Starts(js, s.pos, PrintItems(items) + "]")
    requires |s.toks| + |ItemTokens(items, s.pos)| <= room
    ensures Leads(js, room, s, Shut(s, a, |items|, |PrintItems(items)|, ItemTokens(items, s.pos)))
    decreases items, 1
  {
    hide Tokenize, StepOf, After, LastOpen, Print, Shut, Sized, Starts, Tokens, Follows, Clean, Bump;
    if items == [] {
      ShutChar(js, s.pos, "]");
      AtBracket(js, room, s, a, ARRAY);
    } else {
      var rest := items[1..];
      var d := |Print(items[0])|;
      ItemText(js, s.pos, items);
      ParseValue(js, room, InsideIs(s, a, ARRAY), items[0]);
      var s1 := After(s, items[0]);
      AfterItem(s, a, items[0]);
      if rest == [] {
        AtBracket(js, room, s1, a, ARRAY);
        ShutStep(s, s1, a, 0, d, 0, Tokens(items[0], s.pos), []);
      } else {
        AtComma(js, room, s1, a, ARRAY);
        var s2 := State(s1.pos + 1, s1.toks, a);
        ParseItems(js, room, s2, a, rest);
        ShutStep(s, s2, a, |rest|, d + 1, |PrintItems(rest)|, Tokens(items[0], s.pos), ItemTokens(rest, s2.pos));
      }
    }
  }

  function InsideIs(s: State, a: int, kind: Kind): (r: State)
    requires Inside(s.toks, a, kind)
    ensures r == s && OpenContainers(r.toks)
  {
    s
  }

  lemma ShutChar(js: string, p: nat, t: string)
    requires Starts(js, p, "" + t) && |t| == 1 && t[0] != '\0'
    ensures !AtEnd(js, p) && js[p] == t[0]
  {
    assert js[p..p + 1][0] == t[0];
  }

  /** Where the first item ends and what follows it. */
  lemma ItemText(js: string, p: nat, items: seq<Json>)
    requires items != [] && CleanItems(items) && Starts(js, p, PrintItems(items) + "]")
    ensures Clean(items[0]) && CleanItems(items[1..])
    ensures var q := p + |Print(items[0])|; var rest := items[1..];
      && Starts(js, p, Print(items[0])) && Follows(js, q) && !AtEnd(js, q)
      && (if rest == [] then js[q] == ']' && |PrintItems(items)| == |Print(items[0])|
          else
            && js[q] == ',' && Starts(js, q + 1, PrintItems(rest) + "]")
            && |PrintItems(items)| == |Print(items[0])| + 1 + |PrintItems(rest)|)
  {
    hide Print, Clean, Starts;
    var rest := items[1..];
    var q := p + |Print(items[0])|;
    if rest == [] {
      SplitStarts(js, p, Print(items[0]), "]");
      ShutChar(js, q, "]");
    } else {
      assert PrintItems(items) + "]" == Print(items[0]) + ("," + (PrintItems(rest) + "]"));
      SplitStarts(js, p, Print(items[0]), "," + (PrintItems(rest) + "]"));
      SplitStarts(js, q, ",", PrintItems(rest) + "]");
      ShutChar(js, q, ",");
    }
  }

  lemma AfterItem(s: State, a: int, j: Json)
    requires Sane(s) && Inside(s.toks, a, ARRAY) && s.super == a && Clean(j)
    ensures var s1 := After(s, j);
      Inside(s1.toks, a, ARRAY) && s1.super == a && s1.toks == Sized(s.toks, a, 1) + Tokens(j, s.pos)
        && s1.pos == s.pos + |Print(j)|
  {
    hide LastOpen, Tokens, Print, Clean;
    TokensClosed(j, s.pos);
    InsideStill(s.toks, Bump(s.toks, a), Tokens(j, s.pos), a, ARRAY);
  }

  lemma {:induction false} ParseArray(js: string, room: nat, s: State, j: Json)
    requires Sane(s) && j.Array? && Clean(j) && Starts(js, s.pos, Print(j)) && OpenContainers(s.toks)
      && |s.toks| + |Tokens(j, s.pos)| <= room
    ensures Leads(js, room, s, After(s, j))
    decreases j.items, 2
  {
    hide Tokenize, LastOpen, PrintItems, ItemTokens, CleanItems;
    assert Print(j) == "[" + (PrintItems(j.items) + "]");
    SplitStarts(js, s.pos, "[", PrintItems(j.items) + "]");
    assert js[s.pos] == '[';
    LeadsStep(js, room, s);
    var s1 := Opened(s, ARRAY);
    ParseItems(js, room, s1, |s.toks|, j.items);
    OpenedShut(s, ARRAY, j, |j.items|, |PrintItems(j.items)|, ItemTokens(j.items, s.pos + 1));
  }

  /** After an opening bracket. */
  function Opened(s: State, kind: Kind): (s': State)
    requires Sane(s) && OpenContainers(s.toks) && (kind == ARRAY || kind == OBJECT)
    ensures Sane(s') && Inside(s'.toks, |s.toks|, kind) && s'.super == |s.toks|
  {
    State(s.pos + 1, Bump(s.toks, s.super) + [Tok(kind, s.pos, -1, 0)], |s.toks|)
  }

  lemma OpenedShut(s: State, kind: Kind, j: Json, n: nat, len: nat, more: seq<Tok>)
    requires Sane(s) && OpenContainers(s.toks) && (kind == ARRAY || kind == OBJECT) && IsContainer(j)
      && |Print(j)| == len + 2
    requires Tokens(j, s.pos) == [Tok(kind, s.pos, s.pos + len + 2, n)] + more
    ensures Shut(Opened(s, kind), |s.toks|, n, len, more) == After(s, j)
  {
    hide Tokens, Print;
    var s1 := Opened(s, kind);
    SameOpen(s.toks, s1.toks, |s.toks|);
    var t := Sized(s1.toks, |s.toks|, n);
    assert t[|s.toks| := t[|s.toks|].(end := s1.pos + len + 1)] + more == Bump(s.toks, s.super) + Tokens(j, s.pos);
  }

  // --- tables

  /** After a key and its value: the superior is the key's token, unless the value was a container. */
  function Paired(s: State, a: int, m: Member): (s': State)
    requires Sane(s) && 0 <= a < |s.toks|
    ensures Sane(s')
  {
    State(s.pos + |PrintMember(m)|, Sized(s.toks, a, 1) + PairTokens(m, s.pos),
      if IsContainer(m.val) then a else |s.toks|)
  }

  lemma {:induction false} ParseMember(js: string, room: nat, s: State, a: int, m: Member)
    requires Sane(s) && Inside(s.toks, a, OBJECT) && s.super == a && CleanMember(m) && Starts(js, s.pos, PrintMember(m))
    requires Follows(js, s.pos + |PrintMember(m)|) && |s.toks| + |PairTokens(m, s.pos)| <= room
    ensures Leads(js, room, s, Paired(s, a, m))
    decreases m, 1
  {
    hide Tokenize, StepOf, After, LastOpen, Print, Starts, Tokens, Follows, Clean, Sized, Bump, Paired, OpenContainers;
    MemberText(js, s.pos, m);
    KeyText(m);
    ParseText(js, room, s, m.key);
    var s1 := After(s, m.key);
    KeyRead(s, a, m);
    AtColon(js, room, s1);
    var s2 := State(s1.pos + 1, s1.toks, |s1.toks| - 1);
    ParseValue(js, room, s2, m.val);
    ValueRead(s, s2, a, m);
  }

  lemma KeyText(m: Member)
    requires CleanMember(m)
    ensures m.key.Str? && PlainText(m.key.s) && Clean(m.val)
  {
  }

  lemma MemberText(js: string, p: nat, m: Member)
    requires Starts(js, p, PrintMember(m))
    ensures var q := p + |Print(m.key)|;
      && Starts(js, p, Print(m.key)) && !AtEnd(js, q) && js[q] == ':' && Starts(js, q + 1, Print(m.val))
      && |PrintMember(m)| == |Print(m.key)| + 1 + |Print(m.val)|
  {
    hide Print, Starts;
    assert PrintMember(m) == Print(m.key) + (":" + Print(m.val));
    SplitStarts(js, p, Print(m.key), ":" + Print(m.val));
    SplitStarts(js, p + |Print(m.key)|, ":", Print(m.val));
    ShutChar(js, p + |Print(m.key)|, ":");
  }

  lemma AtColon(js: string, room: nat, s: State)
    requires Sane(s) && !AtEnd(js, s.pos) && js[s.pos] == ':'
    ensures Leads(js, room, s, State(s.pos + 1, s.toks, |s.toks| - 1))
  {
    LeadsStep(js, room, s);
  }

  /** After the key and the colon. */
  lemma KeyRead(s: State, a: int, m: Member)
    requires Sane(s) && Inside(s.toks, a, OBJECT) && s.super == a && CleanMember(m)
    ensures var s1 := After(s, m.key);
      && s1.toks == Sized(s.toks, a, 1) + [Tok(STRING, s.pos + 1, s.pos + |Print(m.key)| - 1, 0)]
      && s1.pos == s.pos + |Print(m.key)|
      && Inside(s1.toks, a, OBJECT) && OpenContainers(s1.toks)
  {
    hide LastOpen;
    assert Tokens(m.key, s.pos) == [Tok(STRING, s.pos + 1, s.pos + |Print(m.key)| - 1, 0)];
    InsideStill(s.toks, Bump(s.toks, a), Tokens(m.key, s.pos), a, OBJECT);
  }

  lemma ValueRead(s: State, s2: State, a: int, m: Member)
    requires Sane(s) && Sane(s2) && Inside(s.toks, a, OBJECT) && CleanMember(m)
      && |PrintMember(m)| == |Print(m.key)| + 1 + |Print(m.val)|
    requires s2.toks == Sized(s.toks, a, 1) + [Tok(STRING, s.pos + 1, s.pos + |Print(m.key)| - 1, 0)]
      && Inside(s2.toks, a, OBJECT)
    requires s2.pos == s.pos + |Print(m.key)| + 1 && s2.super == |s.toks|
    ensures After(s2, m.val) == Paired(s, a, m)
  {
    hide LastOpen, Tokens, Print, PrintMember;
    assert Bump(s2.toks, |s.toks|) == Sized(s.toks, a, 1) + [Tok(STRING, s.pos + 1, s.pos + |Print(m.key)| - 1, 1)];
  }

  /** The members of a table, from any one on, and its closing brace. */
  lemma {:induction false} ParseMembers(js: string, room: nat, s: State, a: int, members: seq<Member>)
    requires Sane(s) && Inside(s.toks, a, OBJECT) && s.super == a && CleanMembers(members)
      && Starts(js, s.pos, PrintMembers(members) + "}")
    requires |s.toks| + |MemberTokens(members, s.pos)| <= room
    ensures Leads(js, room, s, Shut(s, a, |members|, |PrintMembers(members)|, MemberTokens(members, s.pos)))
    decreases members, 2
  {
    hide Tokenize, StepOf, Paired, LastOpen, PrintMember, Shut, Sized, Starts, PairTokens, Follows, CleanMember, Bump;
    if members == [] {
      ShutChar(js, s.pos, "}");
      AtBracket(js, room, s, a, OBJECT);
    } else {
      var rest := members[1..];
      var d := |PrintMember(members[0])|;
      MembersText(js, s.pos, members);
      ParseMember(js, room, s, a, members[0]);
      var s1 := Paired(s, a, members[0]);
      AfterMember(s, a, members[0]);
      if rest == [] {
        AtBracket(js, room, s1, a, OBJECT);
        ShutStep(s, s1, a, 0, d, 0, PairTokens(members[0], s.pos), []);
      } else {
        AtComma(js, room, s1, a, OBJECT);
        var s2 := State(s1.pos + 1, s1.toks, a);
        ParseMembers(js, room, s2, a, rest);
        ShutStep(s, s2, a, |rest|, d + 1, |PrintMembers(rest)|, PairTokens(members[0], s.pos),
          MemberTokens(rest, s2.pos));
      }
    }
  }

  lemma MembersText(js: string, p: nat, members: seq<Member>)
    requires members != [] && CleanMembers(members) && Starts(js, p, PrintMembers(members) + "}")
    ensures CleanMember(members[0]) && CleanMembers(members[1..])
    ensures var q := p + |PrintMember(members[0])|; var rest := members[1..];
      && Starts(js, p, PrintMember(members[0])) && Follows(js, q) && !AtEnd(js, q)
      && (if rest == [] then js[q] == '}' && |PrintMembers(members)| == |PrintMember(members[0])|
          else (js[q] == ',' && Starts(js, q + 1, PrintMembers(rest) + "}")
            && |PrintMembers(members)| == |PrintMember(members[0])| + 1 + |PrintMembers(rest)|))
  {
    hide PrintMember, CleanMember, Starts;
    var rest := members[1..];
    var q := p + |PrintMember(members[0])|;
    if rest == [] {
      SplitStarts(js, p, PrintMember(members[0]), "}");
      ShutChar(js, q, "}");
    } else {
      assert PrintMembers(members) + "}" == PrintMember(members[0]) + ("," + (PrintMembers(rest) + "}"));
      SplitStarts(js, p, PrintMember(members[0]), "," + (PrintMembers(rest) + "}"));
      SplitStarts(js, q, ",", PrintMembers(rest) + "}");
      ShutChar(js, q, ",");
    }
  }

  lemma AfterMember(s: State, a: int, m: Member)
    requires Sane(s) && Inside(s.toks, a, OBJECT) && CleanMember(m)
    ensures var s1 := Paired(s, a, m);
      && Inside(s1.toks, a, OBJECT) && s1.toks == Sized(s.toks, a, 1) + PairTokens(m, s.pos)
      && s1.pos == s.pos + |PrintMember(m)|
      && (s1.super == a || (s1.super >= 0 && !Container(s1.toks[s1.super])))
  {
    hide LastOpen, PrintMember;
    PairClosed(m, s.pos);
    InsideStill(s.toks, Sized(s.toks, a, 1), PairTokens(m, s.pos), a, OBJECT);
  }

  lemma {:induction false} ParseTable(js: string, room: nat, s: State, j: Json)
    requires Sane(s) && j.Table? && Clean(j) && Starts(js, s.pos, Print(j)) && OpenContainers(s.toks)
      && |s.toks| + |Tokens(j, s.pos)| <= room
    ensures Leads(js, room, s, After(s, j))
    decreases j.members, 3
  {
    hide Tokenize, LastOpen, PrintMembers, MemberTokens, CleanMembers, Keys;
    assert Print(j) == "{" + (PrintMembers(j.members) + "}");
    SplitStarts(js, s.pos, "{", PrintMembers(j.members) + "}");
    assert js[s.pos] == '{';
    LeadsStep(js, room, s);
    var s1 := Opened(s, OBJECT);
    ParseMembers(js, room, s1, |s.toks|, j.members);
    OpenedShut(s, OBJECT, j, |j.members|, |PrintMembers(j.members)|, MemberTokens(j.members, s.pos + 1));
  }
}
