/** The JSON tokeniser, jsmn, in its non-strict form: one pass over the text that fills an array of tokens. */
module Jsmn {

  datatype Kind = OBJECT | ARRAY | STRING | PRIMITIVE

  /** Where a token is in the text, and how many others were created under it. An open bracket has no end. */
  datatype Tok = Tok(kind: Kind, start: int, end: int, size: nat)

  /** The parser and the tokens it has filled; `super` is the token that the next one is created under. */
  datatype State = State(pos: nat, toks: seq<Tok>, super: int)

  const START := State(0, [], -1)

  datatype Code = Done | NoMemory | Invalid | Partial

  datatype Outcome = Outcome(code: Code, st: State)

  // --- characters

  predicate IsSpace(c: char) {
    c == '\t' || c == '\r' || c == '\n' || c == ' '
  }

  /** What ends a number or word. */
  predicate Ends(c: char) {
    IsSpace(c) || c == ':' || c == ',' || c == ']' || c == '}'
  }

  predicate IsHex(c: char) {
    '0' <= c <= '9' || 'A' <= c <= 'F' || 'a' <= c <= 'f'
  }

  predicate Escapable(c: char) {
    c == '"' || c == '/' || c == '\\' || c == 'b' || c == 'f' || c == 'r' || c == 'n' || c == 't'
  }

  predicate AtEnd(js: string, p: nat) {
    p >= |js| || js[p] == '\0'
  }

  // --- scanning one token

  datatype Scan = Found(p: nat) | BadChar | Unclosed

  /** Up to `n` hexadecimal digits. */
  function HexRun(js: string, p: nat, n: nat): (r: Scan)
    ensures r.Found? ==> p <= r.p <= p + n
    decreases n
  {
    if n == 0 || AtEnd(js, p) then Found(p)
    else if !IsHex(js[p]) then BadChar
    else HexRun(js, p + 1, n - 1)
  }

  /** The closing quote, from inside a string. */
  function ScanString(js: string, p: nat): (r: Scan)
    ensures r.Found? ==> p <= r.p < |js| && js[r.p] == '"'
    decreases |js| - p
  {
    if AtEnd(js, p) then Unclosed
    else if js[p] == '"' then Found(p)
    else if js[p] == '\\' && p + 1 < |js| then
      if Escapable(js[p + 1]) then ScanString(js, p + 2)
      else if js[p + 1] == 'u' then
        var r := HexRun(js, p + 2, 4);
        if r.Found? then ScanString(js, r.p) else BadChar
      else BadChar
    else ScanString(js, p + 1)
  }

  /** The end of a number or word. */
  function ScanPrimitive(js: string, p: nat): (r: Scan)
    requires p <= |js|
    ensures r.Found? ==> p <= r.p <= |js| && (r.p == p ==> AtEnd(js, p) || Ends(js[p]))
    ensures !r.Unclosed?
    decreases |js| - p
  {
    if AtEnd(js, p) || Ends(js[p]) then Found(p)
    else if js[p] < 32 as char || js[p] >= 127 as char then BadChar
    else ScanPrimitive(js, p + 1)
  }

  // --- the tokens so far

  predicate Open(t: Tok) {
    t.start != -1 && t.end == -1
  }

  /** The last open token before `n`, or -1. */
  function LastOpen(toks: seq<Tok>, n: nat): (i: int)
    requires n <= |toks|
    ensures -1 <= i < n && (i >= 0 ==> Open(toks[i])) && forall k :: i < k < n ==> !Open(toks[k])
  {
    if n == 0 then -1 else if Open(toks[n - 1]) then n - 1 else LastOpen(toks, n - 1)
  }

  predicate Container(t: Tok) {
    t.kind == ARRAY || t.kind == OBJECT
  }

  /** The last open array or object; what is now the superior if there is none. */
  function Enclosing(toks: seq<Tok>, n: nat, super: int): (i: int)
    requires n <= |toks| && -1 <= super < |toks|
    ensures -1 <= i < |toks|
  {
    if n == 0 then super
    else if Container(toks[n - 1]) && Open(toks[n - 1]) then n - 1
    else Enclosing(toks, n - 1, super)
  }

  /** One more token under `super`. */
  function Bump(toks: seq<Tok>, super: int): (r: seq<Tok>)
    requires -1 <= super < |toks|
    ensures |r| == |toks|
  {
    if super == -1 then toks else toks[super := toks[super].(size := toks[super].size + 1)]
  }

  predicate Sane(s: State) {
    -1 <= s.super < |s.toks|
  }

  // --- one character, or one string or word

  datatype Step = Go(st: State) | Stop(code: Code, st: State)

  function Begin(s: State, kind: Kind, room: nat): Step
    requires Sane(s)
  {
    if |s.toks| >= room then Stop(NoMemory, s)
    else Go(State(s.pos, Bump(s.toks, s.super) + [Tok(kind, s.pos, -1, 0)], |s.toks|))
  }

  function Close(s: State, kind: Kind): Step
    requires Sane(s)
  {
    var i := LastOpen(s.toks, |s.toks|);
    if i == -1 || s.toks[i].kind != kind then Stop(Invalid, s)
    else
      var toks := s.toks[i := s.toks[i].(end := s.pos + 1)];
      Go(State(s.pos, toks, LastOpen(toks, i + 1)))
  }

  function Leaf(s: State, kind: Kind, start: int, end: nat, last: nat, room: nat): Step
    requires Sane(s)
  {
    if |s.toks| >= room then Stop(NoMemory, s)
    else Go(State(last, Bump(s.toks + [Tok(kind, start, end, 0)], s.super), s.super))
  }

  function StepOf(js: string, s: State, room: nat): (r: Step)
    requires Sane(s) && !AtEnd(js, s.pos)
    ensures r.Go? ==> Sane(r.st) && s.pos <= r.st.pos < |js| && |s.toks| <= |r.st.toks| <= |s.toks| + 1
    ensures r.Stop? && r.code == NoMemory ==> r.st == s && |s.toks| >= room
  {
    var c := js[s.pos];
    if c == '{' then Begin(s, OBJECT, room)
    else if c == '[' then Begin(s, ARRAY, room)
    else if c == '}' then Close(s, OBJECT)
    else if c == ']' then Close(s, ARRAY)
    else if c == '"' then
      match ScanString(js, s.pos + 1)
      case Found(q) => Leaf(s, STRING, s.pos + 1, q, q, room)
      case BadChar => Stop(Invalid, s)
      case Unclosed => Stop(Partial, s)
    else if IsSpace(c) then Go(s)
    else if c == ':' then Go(s.(super := |s.toks| - 1))
    else if c == ',' then
      Go(if s.super != -1 && !Container(s.toks[s.super]) then s.(super := Enclosing(s.toks, |s.toks|, s.super)) else s)
    else
      match ScanPrimitive(js, s.pos)
      case Found(q) => Leaf(s, PRIMITIVE, s.pos, q, q - 1, room)
      case BadChar => Stop(Invalid, s)
      case Unclosed => Stop(Partial, s)
  }

  /** The whole pass, with room for `room` tokens. */
  function Tokenize(js: string, s: State, room: nat): (r: Outcome)
    requires Sane(s)
    ensures Sane(r.st)
    decreases |js| - s.pos
  {
    if AtEnd(js, s.pos) then Outcome(if LastOpen(s.toks, |s.toks|) == -1 then Done else Partial, s)
    else
      match StepOf(js, s, room)
      case Stop(code, st) => Outcome(code, st)
      case Go(st) => Tokenize(js, st.(pos := st.pos + 1), room)
  }

  // --- the parser itself

  class JsmnParser {
    var pos: nat
    var toknext: nat
    var toksuper: int

    constructor ()
      ensures pos == 0 && toknext == 0 && toksuper == -1
    {
      pos, toknext, toksuper := 0, 0, -1;
    }

    ghost predicate Valid(tokens: array<Tok>)
      reads this, tokens
    {
      toknext <= tokens.Length && -1 <= toksuper < toknext
    }

    ghost function Abs(tokens: array<Tok>): (s: State)
      requires Valid(tokens)
      reads this, tokens
      ensures Sane(s)
    {
      State(pos, tokens[..toknext], toksuper)
    }

    /** The next free token, or nothing when the array is full. */
    method AllocToken(tokens: array<Tok>, t: Tok) returns (ok: bool)
      requires Valid(tokens)
      modifies this`toknext, tokens
      ensures Valid(tokens) && ok == (old(toknext) < tokens.Length)
      ensures tokens[..toknext] == if ok then old(tokens[..toknext]) + [t] else old(tokens[..toknext])
    {
      if toknext >= tokens.Length {
        return false;
      }
      tokens[toknext] := t;
      toknext := toknext + 1;
      return true;
    }

    /** One more token under the superior. */
    method CountUnder(tokens: array<Tok>)
      requires Valid(tokens)
      modifies tokens
      ensures Valid(tokens) && tokens[..toknext] == Bump(old(tokens[..toknext]), toksuper)
    {
      if toksuper != -1 {
        tokens[toksuper] := tokens[toksuper].(size := tokens[toksuper].size + 1);
      }
    }

    method ParsePrimitive(js: string, tokens: array<Tok>) returns (code: Code)
      requires Valid(tokens) && !AtEnd(js, pos) && !Ends(js[pos])
      modifies this, tokens
      ensures Valid(tokens) && toksuper == old(toksuper)
      ensures match ScanPrimitive(js, old(pos))
        case Found(q) =>
          if old(toknext) >= tokens.Length then code == NoMemory && Abs(tokens) == old(Abs(tokens))
          else
            && code == Done
            && Abs(tokens) == State(q - 1, old(tokens[..toknext]) + [Tok(PRIMITIVE, old(pos), q, 0)], toksuper)
        case _ => code == Invalid && Abs(tokens) == old(Abs(tokens))
    {
      var start := pos;
      while !AtEnd(js, pos) && !Ends(js[pos])
        invariant start <= pos <= |js| && ScanPrimitive(js, pos) == ScanPrimitive(js, start)
        invariant pos == start ==> !AtEnd(js, pos) && !Ends(js[pos])
        invariant toknext == old(toknext) && toksuper == old(toksuper) && tokens[..] == old(tokens[..])
        decreases |js| - pos
      {
        if js[pos] < 32 as char || js[pos] >= 127 as char {
          pos := start;
          return Invalid;
        }
        pos := pos + 1;
      }
      var ok := AllocToken(tokens, Tok(PRIMITIVE, start, pos, 0));
      if !ok {
        pos := start;
        return NoMemory;
      }
      pos := pos - 1;
      return Done;
    }

    method ParseString(js: string, tokens: array<Tok>) returns (code: Code)
      requires Valid(tokens)
      modifies this, tokens
      ensures Valid(tokens) && toksuper == old(toksuper)
      ensures match ScanString(js, old(pos) + 1)
        case Found(q) =>
          if old(toknext) >= tokens.Length then code == NoMemory && Abs(tokens) == old(Abs(tokens))
          else
            && code == Done
            && Abs(tokens) == State(q, old(tokens[..toknext]) + [Tok(STRING, old(pos) + 1, q, 0)], toksuper)
        case BadChar => code == Invalid && Abs(tokens) == old(Abs(tokens))
        case Unclosed => code == Partial && Abs(tokens) == old(Abs(tokens))
    {
      var start := pos;
      pos := pos + 1;
      while !AtEnd(js, pos)
        invariant pos > start && ScanString(js, pos) == ScanString(js, start + 1)
        invariant toknext == old(toknext) && toksuper == old(toksuper) && tokens[..] == old(tokens[..])
        decreases |js| - pos
      {
        var c := js[pos];
        if c == '"' {
          var ok := AllocToken(tokens, Tok(STRING, start + 1, pos, 0));
          if !ok {
            pos := start;
            return NoMemory;
          }
          return Done;
        }
        if c == '\\' && pos + 1 < |js| {
          pos := pos + 1;
          if js[pos] == 'u' {
            var bad := SkipHex(js);
            if bad {
              pos := start;
              return Invalid;
            }
          } else if !Escapable(js[pos]) {
            pos := start;
            return Invalid;
          }
        }
        pos := pos + 1;
      }
      pos := start;
      return Partial;
    }

    /** Past the hexadecimal digits after the `u`; the position is left on the last of them. */
    method SkipHex(js: string) returns (bad: bool)
      requires pos < |js|
      modifies this`pos
      ensures var r := HexRun(js, old(pos) + 1, 4); if r.Found? then !bad && pos == r.p - 1 else bad
    {
      pos := pos + 1;
      var i := 0;
      while i < 4 && !AtEnd(js, pos)
        invariant 0 <= i <= 4 && pos == old(pos) + 1 + i && HexRun(js, pos, 4 - i) == HexRun(js, old(pos) + 1, 4)
        decreases 4 - i
      {
        if !IsHex(js[pos]) {
          return true;
        }
        pos := pos + 1;
        i := i + 1;
      }
      pos := pos - 1;
      return false;
    }

    method FindOpen(tokens: array<Tok>, from: nat) returns (i: int)
      requires Valid(tokens) && from <= toknext
      ensures i == LastOpen(tokens[..toknext], from)
    {
      ghost var toks := tokens[..toknext];
      i := from - 1;
      while i >= 0
        invariant -1 <= i < from && LastOpen(toks, i + 1) == LastOpen(toks, from)
      {
        if tokens[i].start != -1 && tokens[i].end == -1 {
          return;
        }
        i := i - 1;
      }
    }

    method CloseBracket(tokens: array<Tok>, kind: Kind) returns (code: Code)
      requires Valid(tokens)
      modifies this`toksuper, tokens
      ensures Valid(tokens)
      ensures match Close(old(Abs(tokens)), kind)
        case Stop(c, st) => code == c && Abs(tokens) == st
        case Go(st) => code == Done && Abs(tokens) == st
    {
      var i := FindOpen(tokens, toknext);
      if i == -1 || tokens[i].kind != kind {
        return Invalid;
      }
      toksuper := -1;
      tokens[i] := tokens[i].(end := pos + 1);
      assert tokens[..toknext] == old(tokens[..toknext])[i := tokens[i]];
      var outer := FindOpen(tokens, i + 1);
      toksuper := outer;
      return Done;
    }

    method Comma(tokens: array<Tok>)
      requires Valid(tokens)
      modifies this`toksuper
      ensures Valid(tokens)
      ensures var s := old(Abs(tokens));
        Abs(tokens) == if s.super != -1
          && !Container(s.toks[s.super]) then s.(super := Enclosing(s.toks, |s.toks|, s.super)) else s
    {
      if toksuper != -1 && tokens[toksuper].kind != ARRAY && tokens[toksuper].kind != OBJECT {
        ghost var toks := tokens[..toknext];
        var i := toknext - 1;
        while i >= 0
          invariant -1 <= i < toknext && toksuper == old(toksuper)
          invariant Enclosing(toks, i + 1, toksuper) == Enclosing(toks, toknext, toksuper)
        {
          if Container(tokens[i]) && tokens[i].start != -1 && tokens[i].end == -1 {
            toksuper := i;
            return;
          }
          i := i - 1;
        }
      }
    }

    method BeginBracket(tokens: array<Tok>, kind: Kind) returns (code: Code)
      requires Valid(tokens)
      modifies this, tokens
      ensures Valid(tokens)
      ensures match Begin(old(Abs(tokens)), kind, tokens.Length)
        case Stop(c, st) => code == c && Abs(tokens) == st
        case Go(st) => code == Done && Abs(tokens) == st
    {
      var ok := AllocToken(tokens, Tok(kind, pos, -1, 0));
      if !ok {
        return NoMemory;
      }
      CountUnder(tokens);
      toksuper := toknext - 1;
      return Done;
    }

    /** One turn of the loop. */
    method Advance(js: string, tokens: array<Tok>) returns (code: Code)
      requires Valid(tokens) && !AtEnd(js, pos)
      modifies this, tokens
      ensures Valid(tokens)
      ensures match StepOf(js, old(Abs(tokens)), tokens.Length)
        case Stop(c, st) => code == c != Done && Abs(tokens) == st
        case Go(st) => code == Done && Abs(tokens) == st
    {
      code := Done;
      var c := js[pos];
      if c == '{' || c == '[' {
        code := BeginBracket(tokens, if c == '{' then OBJECT else ARRAY);
      } else if c == '}' || c == ']' {
        code := CloseBracket(tokens, if c == '}' then OBJECT else ARRAY);
      } else if c == '"' {
        code := ParseString(js, tokens);
        if code == Done {
          CountUnder(tokens);
        }
      } else if IsSpace(c) {
      } else if c == ':' {
        toksuper := toknext - 1;
      } else if c == ',' {
        Comma(tokens);
      } else {
        code := ParsePrimitive(js, tokens);
        if code == Done {
          CountUnder(tokens);
        }
      }
    }

    method Parse(js: string, tokens: array<Tok>) returns (code: Code)
      requires Valid(tokens)
      modifies this, tokens
      ensures Valid(tokens) && Outcome(code, Abs(tokens)) == Tokenize(js, old(Abs(tokens)), tokens.Length)
    {
      hide StepOf, LastOpen;
      ghost var s := Abs(tokens);
      while !AtEnd(js, pos)
        invariant Valid(tokens) && Tokenize(js, Abs(tokens), tokens.Length) == Tokenize(js, s, tokens.Length)
        decreases |js| - pos
      {
        code := Advance(js, tokens);
        if code != Done {
          return;
        }
        pos := pos + 1;
      }
      var i := FindOpen(tokens, toknext);
      code := if i == -1 then Done else Partial;
    }
  }
}
