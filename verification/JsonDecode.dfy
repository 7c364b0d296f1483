/** From tokens to a value: `parse_level`, and the decoder around it. */
module JsonDecode {
  import opened Json
  import opened Jsmn
  import opened JsonTokens

  // --- words and numbers

  function Lower(c: char): char {
    if 'A' <= c <= 'Z' then c - 'A' + 'a' else c
  }

  /** A word, in capital or small letters. */
  predicate Word(js: string, start: nat, end: nat, w: string) {
    end - start == |w| && end <= |js| && forall k :: 0 <= k < |w| ==> Lower(js[start + k]) == w[k]
  }

  /** A point somewhere in the rest of the text: what decides, for a number, whether it is an integer. */
  predicate PointAfter(js: string, p: nat)
    decreases |js| - p
  {
    !AtEnd(js, p) && (js[p] == '.' || PointAfter(js, p + 1))
  }

  function DigitRun(js: string, p: nat, n: nat): nat
    decreases |js| - p
  {
    if p < |js| && IsDigit(js[p]) then DigitRun(js, p + 1, n * 10 + DigitValue(js[p])) else n
  }

  /** atol */
  function IntegerAt(js: string, p: nat): int {
    if p < |js| && js[p] == '-' then 0 - DigitRun(js, p + 1, 0)
    else if p < |js| && js[p] == '+' then DigitRun(js, p + 1, 0)
    else DigitRun(js, p, 0)
  }

  function Primitive(js: string, start: nat, end: nat): Json
    requires start <= end <= |js|
  {
    if Word(js, start, end, "false") then Bool(false)
    else if Word(js, start, end, "true") then Bool(true)
    else if Word(js, start, end, "null") then Null
    else if PointAfter(js, start) then Float(js[start..end])
    else Int(IntegerAt(js, start))
  }

  // --- tables

  /** Arrays and tables are keys only by identity; strings, numbers and booleans by value. */
  predicate SameKey(a: Json, b: Json) {
    a == b && !a.Array? && !a.Table?
  }

  function Find(members: seq<Member>, k: Json): (i: int)
    ensures -1 <= i < |members| && (i >= 0 ==> SameKey(members[i].key, k))
    ensures i == -1 ==> forall j :: 0 <= j < |members| ==> !SameKey(members[j].key, k)
  {
    if members == [] then -1
    else if SameKey(members[|members| - 1].key, k) then |members| - 1
    else Find(members[..|members| - 1], k)
  }

  /** lv_rawset on a table: a null key is refused. */
  function RawSet(members: seq<Member>, k: Json, v: Json): seq<Member> {
    if k.Null? then members
    else
      var i := Find(members, k);
      if i >= 0 then members[i := Member(k, v)] else members + [Member(k, v)]
  }

  // --- values

  /** A value and how many tokens it took, or a read of a token that was never written. */
  datatype Decoded = Value(j: Json, n: nat) | Stray

  datatype DecodedMember = Pair(key: Json, val: Json, n: nat) | NoPair

  predicate Written(js: string, toks: seq<Tok>) {
    forall i :: 0 <= i < |toks| ==> 0 <= toks[i].start <= toks[i].end <= |js|
  }

  function Level(js: string, toks: seq<Tok>, t: nat): (r: Decoded)
    requires Written(js, toks)
    ensures r.Value? ==> 0 < r.n <= |toks| - t
    decreases if t <= |toks| then |toks| - t else 0, 0
  {
    if t >= |toks| then Stray
    else
      match toks[t].kind
      case PRIMITIVE => Value(Primitive(js, toks[t].start, toks[t].end), 1)
      case STRING => Value(Str(js[toks[t].start..toks[t].end]), 1)
      case OBJECT => LevelMembers(js, toks, t + 1, toks[t].size, [], 1)
      case ARRAY => LevelItems(js, toks, t + 1, toks[t].size, [], 1)
  }

  /** The `k` items of an array from token `t` on, after `items`; `n` tokens of the array were read. */
  function LevelItems(js: string, toks: seq<Tok>, t: nat, k: nat, items: seq<Json>, n: nat): (r: Decoded)
    requires Written(js, toks) && t <= |toks|
    ensures r.Value? ==> n <= r.n <= n + |toks| - t
    decreases |toks| - t, k + 2
  {
    if k == 0 then Value(Array(items), n)
    else
      match Level(js, toks, t)
      case Stray => Stray
      case Value(j, m) => LevelItems(js, toks, t + m, k - 1, items + [j], n + m)
  }

  function LevelMembers(js: string, toks: seq<Tok>, t: nat, k: nat, members: seq<Member>, n: nat): (r: Decoded)
    requires Written(js, toks) && t <= |toks|
    ensures r.Value? ==> n <= r.n <= n + |toks| - t
    decreases |toks| - t, k + 2
  {
    if k == 0 then Value(Table(members), n)
    else
      match LevelMember(js, toks, t)
      case NoPair => Stray
      case Pair(key, val, m) => LevelMembers(js, toks, t + m, k - 1, RawSet(members, key, val), n + m)
  }

  /** A key and its value. */
  function LevelMember(js: string, toks: seq<Tok>, t: nat): (r: DecodedMember)
    requires Written(js, toks) && t <= |toks|
    ensures r.Pair? ==> 0 < r.n <= |toks| - t
    decreases |toks| - t, 1
  {
    match Level(js, toks, t)
    case Stray => NoPair
    case Value(key, m) =>
      match Level(js, toks, t + m)
      case Stray => NoPair
      case Value(val, m') => Pair(key, val, m + m')
  }

  // --- the decoder

  /** The value stack of the virtual machine, as far as the decoder uses it. */
  class JsonStack {
    var stack: seq<Json>

    constructor ()
      ensures stack == []
    {
      stack := [];
    }

    method Push(j: Json)
      modifies this
      ensures stack == old(stack) + [j]
    {
      stack := stack + [j];
    }

    /** lv_rawset(v, -3): pop a value and a key, and set them in the table below. */
    method SetMember()
      requires |stack| >= 3 && stack[|stack| - 3].Table?
      modifies this
      ensures var n := |old(stack)|;
        stack == old(stack)[..n - 3] + [Table(RawSet(old(stack)[n - 3].members, old(stack)[n - 2], old(stack)[n - 1]))]
    {
      var n := |stack|;
      stack := stack[..n - 3] + [Table(RawSet(stack[n - 3].members, stack[n - 2], stack[n - 1]))];
    }

    /** lv_arrayappend(v, -2) */
    method AppendItem()
      requires |stack| >= 2 && stack[|stack| - 2].Array?
      modifies this
      ensures var n := |old(stack)|;
        stack == old(stack)[..n - 2] + [Array(old(stack)[n - 2].items + [old(stack)[n - 1]])]
    {
      var n := |stack|;
      stack := stack[..n - 2] + [Array(stack[n - 2].items + [stack[n - 1]])];
    }

    /** `count` is at least the number of tokens left: one more for every level. */
    method ParseLevel(js: string, toks: seq<Tok>, t: nat, count: nat) returns (n: nat, stray: bool)
      requires Written(js, toks) && t <= |toks| && count >= |toks| - t
      modifies this
      ensures count == 0 ==> n == 0 && !stray && stack == old(stack)
      ensures count > 0 ==> match Level(js, toks, t)
        case Value(j, m) => !stray && n == m && stack == old(stack) + [j]
        case Stray => stray
      decreases |toks| - t, 0
    {
      n, stray := 0, false;
      if count == 0 {
        return;
      }
      if t >= |toks| {
        return 0, true;
      }
      var tok := toks[t];
      match tok.kind {
        case PRIMITIVE =>
          Push(Primitive(js, tok.start, tok.end));
          n := 1;
        case STRING =>
          Push(Str(js[tok.start..tok.end]));
          n := 1;
        case OBJECT =>
          Push(Table([]));
          n, stray := ParseMembers(js, toks, t, tok.size, count);
        case ARRAY =>
          Push(Array([]));
          n, stray := ParseItems(js, toks, t, tok.size, count);
      }
    }

    method ParseItems(js: string, toks: seq<Tok>, t: nat, size: nat, count: nat) returns (n: nat, stray: bool)
      requires Written(js, toks) && t < |toks| && count >= |toks| - t && stack != [] && stack[|stack| - 1] == Array([])
      modifies this
      ensures match LevelItems(js, toks, t + 1, size, [], 1)
        case Value(j, m) => !stray && n == m && stack == old(stack)[..|old(stack)| - 1] + [j]
        case Stray => stray
      decreases |toks| - t - 1, size + 2
    {
      ghost var below := stack[..|stack| - 1];
      ghost var items := [];
      var j, i := 0, 0;
      while i < size
        invariant 0 <= i <= size && t + 1 + j <= |toks| && stack == below + [Array(items)]
        invariant LevelItems(js, toks, t + 1 + j, size - i, items, j + 1) == LevelItems(js, toks, t + 1, size, [], 1)
      {
        var m, bad := ParseLevel(js, toks, t + 1 + j, count - j);
        if bad {
          return 0, true;
        }
        ghost var item := Level(js, toks, t + 1 + j).j;
        assert stack == below + [Array(items), item];
        j := j + m;
        AppendItem();
        items := items + [item];
        i := i + 1;
      }
      return j + 1, false;
    }

    method ParseMembers(js: string, toks: seq<Tok>, t: nat, size: nat, count: nat) returns (n: nat, stray: bool)
      requires Written(js, toks) && t < |toks| && count >= |toks| - t && stack != [] && stack[|stack| - 1] == Table([])
      modifies this
      ensures match LevelMembers(js, toks, t + 1, size, [], 1)
        case Value(j, m) => !stray && n == m && stack == old(stack)[..|old(stack)| - 1] + [j]
        case Stray => stray
      decreases |toks| - t - 1, size + 2
    {
      hide LevelMember, RawSet;
      ghost var below := stack[..|stack| - 1];
      ghost var members := [];
      var j, i := 0, 0;
      while i < size
        invariant 0 <= i <= size && t + 1 + j <= |toks| && stack == below + [Table(members)]
        invariant LevelMembers(js, toks, t + 1 + j, size - i, members, j + 1)
          == LevelMembers(js, toks, t + 1, size, [], 1)
      {
        ghost var pair := LevelMember(js, toks, t + 1 + j);
        var m, bad := ParseMember(js, toks, t + 1 + j, count - j);
        if bad {
          return 0, true;
        }
        assert stack == below + [Table(members), pair.key, pair.val];
        j := j + m;
        SetMember();
        members := RawSet(members, pair.key, pair.val);
        i := i + 1;
      }
      return j + 1, false;
    }

    method ParseMember(js: string, toks: seq<Tok>, t: nat, count: nat) returns (n: nat, stray: bool)
      requires Written(js, toks) && t <= |toks| && count > |toks| - t
      modifies this
      ensures match LevelMember(js, toks, t)
        case Pair(key, val, m) => !stray && n == m && stack == old(stack) + [key, val]
        case NoPair => stray
      decreases |toks| - t, 1
    {
      var bad;
      n, bad := ParseLevel(js, toks, t, count);
      if bad {
        return 0, true;
      }
      var m;
      m, bad := ParseLevel(js, toks, t + n, count - n);
      if bad {
        return 0, true;
      }
      return n + m, false;
    }
  }

  datatype Result = Got(j: Json) | Nothing | Failed | Undefined

  /** What decoding a text gives. */
  function DecodeText(js: string): Result {
    var r := Tokenize(js, START, |js| + 32);
    if r.code != Done then Failed
    else if r.st.toks == [] then Nothing
    else
      AllWritten(js, |js| + 32);
      match Level(js, r.st.toks, 0)
      case Value(j, _) => Got(j)
      case Stray => Undefined
  }

  lemma AllWritten(js: string, room: nat)
    requires Tokenize(js, START, room).code == Done
    ensures Written(js, Tokenize(js, START, room).st.toks)
  {
    hide Tokenize;
    TokensNest(js, room);
    NestingRun(js, START, room);
    PositionIn(js, START, room);
  }

  lemma {:induction false} PositionIn(js: string, s: State, room: nat)
    requires Sane(s) && s.pos <= |js|
    ensures Tokenize(js, s, room).st.pos <= |js|
    decreases |js| - s.pos
  {
    hide StepOf;
    if !AtEnd(js, s.pos) {
      var r := StepOf(js, s, room);
      if r.Go? {
        PositionIn(js, r.st.(pos := r.st.pos + 1), room);
      } else {
        Stops(js, s, room);
      }
    }
  }

  /** json_decode: tokenise, with as many tokens as that takes, and build the value. */
  method JsonDecodeText(js: string) returns (r: Result)
    ensures r == DecodeText(js)
  {
    var code, p, tokens := TokenizeAll(js, 32);
    assert Outcome(code, p.Abs(tokens)) == Tokenize(js, START, |js| + 32);
    if code != Done {
      return Failed;
    }
    AllWritten(js, |js| + 32);
    var toks := tokens[..p.toknext];
    var vm := new JsonStack();
    var n, stray := vm.ParseLevel(js, toks, 0, p.toknext);
    if stray {
      return Undefined;
    }
    return if vm.stack == [] then Nothing else Got(vm.stack[|vm.stack| - 1]);
  }
}
