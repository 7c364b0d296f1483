/** String literals: `_string_escape` writes them and `LVLexer::ReadString` reads them. Characters are bytes,
    0 to 255; `char` is signed, so those from 128 up are negative where they are converted to int. */
module Escape {

  type Str = seq<int>

  const EOB := 0
  const QUOTE := '\"' as int
  const APOSTROPHE := '\'' as int
  const BACKSLASH := '\\' as int
  const NEWLINE := '\n' as int

  ghost predicate Bytes(s: Str) {
    forall k :: 0 <= k < |s| ==> 0 <= s[k] < 256
  }

  // --- writing

  predicate Printable(c: int) {
    0x20 <= c <= 0x7e
  }

  function HexDigit(d: int): int {
    if d < 10 then '0' as int + d else 'a' as int + d - 10
  }

  /** What "%02x" makes of a char: a negative one is converted to a 32-bit unsigned number. */
  function Hex2(c: int): Str {
    if c < 128 then [HexDigit(c / 16), HexDigit(c % 16)]
    else
      var f := 'f' as int;
      [f, f, f, f, f, f, HexDigit(c / 16), HexDigit(c % 16)]
  }

  /** What `snprintf` leaves of a text in `bound` bytes, over what is in the buffer from `at` on: it stops one
      short of the bound and writes a NUL. The caller goes on as if all of it had been written. */
  function Bounded(t: Str, bound: nat, scratch: int -> int, at: nat): (r: Str)
    ensures |r| == |t| && (|t| < bound ==> r == t)
  {
    if |t| < bound || bound == 0 then t
    else t[..bound - 1] + [EOB] + seq(|t| - bound, k => scratch(at + bound + k))
  }

  /** A character's escape without the bound. Control characters are never printable, so of the switch only
      these cases can apply. */
  function EscapeChar(c: int): Str {
    if Printable(c) || c == 0 then
      if c == BACKSLASH || c == QUOTE || c == APOSTROPHE then [BACKSLASH, c]
      else if c == 0 then [BACKSLASH, '0' as int]
      else [c]
    else [BACKSLASH, 'x' as int] + Hex2(c)
  }

  predicate Formatted(c: int) {
    !Printable(c) && c != 0
  }

  /** The bound is four times the length of the string, wherever the character goes. */
  function EscapeIn(c: int, size: nat, scratch: int -> int, at: nat): (r: Str)
    ensures |r| == |EscapeChar(c)|
  {
    if Formatted(c) then Bounded(EscapeChar(c), 4 * size, scratch, at) else EscapeChar(c)
  }

  /** The escape of the first characters of a string of `size`, in a buffer that holds `scratch`. */
  function Escaped(s: Str, size: nat, scratch: int -> int): Str {
    if s == [] then []
    else
      var first := Escaped(s[..|s| - 1], size, scratch);
      first + EscapeIn(s[|s| - 1], size, scratch, |first|)
  }

  method EscapeOne(c: int, size: nat, scratch: int -> int, at: nat) returns (piece: Str, escaped: bool)
    ensures piece == EscapeIn(c, size, scratch, at) && (!escaped ==> piece == [c])
  {
    var escch := 0;
    if Printable(c) || c == 0 {
      if c == BACKSLASH || c == QUOTE || c == APOSTROPHE {
        escch := c;
      } else if c == 0 {
        escch := '0' as int;
      }
      if escch != 0 {
        return [BACKSLASH] + [escch], true;
      }
      return [c], false;
    }
    return Bounded([BACKSLASH, 'x' as int] + Hex2(c), 4 * size, scratch, at), true;
  }

  method StringEscape(str: Str, scratch: int -> int) returns (dest: Str)
    ensures dest == Escaped(str, |str|, scratch)
  {
    hide EscapeIn;
    dest := [];
    var n, escaped := 0, 0;
    while n < |str|
      invariant 0 <= n <= |str| && dest == Escaped(str[..n], |str|, scratch) && escaped >= 0
      invariant escaped == 0 ==> dest == str[..n]
    {
      var piece, esc := EscapeOne(str[n], |str|, scratch, |dest|);
      assert str[..n + 1][..n] == str[..n];
      dest := dest + piece;
      if esc {
        escaped := escaped + 1;
      }
      n := n + 1;
    }
    assert str[..n] == str;
    if escaped == 0 {
      dest := str;                // nothing escaped: the string itself
    }
  }

  // --- reading

  predicate IsHex(c: int) {
    '0' as int <= c <= '9' as int || 'a' as int <= c <= 'f' as int || 'A' as int <= c <= 'F' as int
  }

  function HexValue(c: int): int {
    if c <= '9' as int then c - '0' as int
    else if c <= 'F' as int then c - 'A' as int + 10
    else c - 'a' as int + 10
  }

  /** strtoul with base 16. */
  function Number(digits: Str): int {
    if digits == [] then 0 else Number(digits[..|digits| - 1]) * 16 + HexValue(digits[|digits| - 1])
  }

  /** The character at a position of the source text. */
  function At(src: Str, p: int): int {
    if 0 <= p < |src| then src[p] else EOB
  }

  /** Hexadecimal digits from `p`, no more than `max` of them. */
  function Digits(src: Str, p: nat, max: nat): (d: Str)
    ensures |d| <= max && p + |d| <= if p <= |src| then |src| else p
    decreases max
  {
    if max > 0 && IsHex(At(src, p)) then [src[p]] + Digits(src, p + 1, max - 1) else []
  }

  function Utf8(ch: int): Str {
    if ch < 0 then []
    else if ch < 0x80 then [ch]
    else if ch < 0x800 then [ch / 64 + 0xC0, ch % 64 + 0x80]
    else if ch < 0x1_0000 then [ch / 4096 + 0xE0, ch / 64 % 64 + 0x80, ch % 64 + 0x80]
    else if ch < 0x11_0000 then [ch / 262144 + 0xF0, ch / 4096 % 64 + 0x80, ch / 64 % 64 + 0x80, ch % 64 + 0x80]
    else []
  }

  /** The character that a one-letter escape stands for, or -1. */
  function Letter(c: int): int {
    if c == 't' as int then 9
    else if c == 'a' as int then 7
    else if c == 'b' as int then 8
    else if c == 'n' as int then 10
    else if c == 'r' as int then 13
    else if c == 'v' as int then 11
    else if c == 'f' as int then 12
    else if c == '0' as int then 0
    else if c == BACKSLASH || c == QUOTE || c == APOSTROPHE then c
    else -1
  }

  datatype Scan = Closed(s: Str, p: nat) | Bad

  /** The rest of a literal from position `p`, after `acc` was read. After \u and \U alike up to eight digits
      are taken: the choice between four and eight looks at the backslash. */
  function ScanFrom(src: Str, p: nat, acc: Str, delim: int, verbatim: bool): Scan
    decreases |src| - p
  {
    var x := At(src, p);
    if x == delim then
      if verbatim && p < |src|
        && At(src, p + 1) == QUOTE then ScanFrom(src, p + 2, acc + [QUOTE], delim, verbatim) else Closed(acc, p + 1)
    else if x == EOB then Bad
    else if x == NEWLINE then
      if verbatim then ScanFrom(src, p + 1, acc + [x], delim, verbatim) else Bad
    else if x == BACKSLASH then
      if verbatim then ScanFrom(src, p + 1, acc + [x], delim, verbatim)
      else
        var c := At(src, p + 1);
        if c == 'x' as int then
          var d := Digits(src, p + 2, 2);
          if d == [] then Bad else ScanFrom(src, p + 2 + |d|, acc + [Number(d) % 256], delim, verbatim)
        else if c == 'u' as int || c == 'U' as int then
          var d := Digits(src, p + 2, 8);
          if d == [] then Bad else ScanFrom(src, p + 2 + |d|, acc + Utf8(Number(d)), delim, verbatim)
        else if Letter(c) >= 0 then ScanFrom(src, p + 2, acc + [Letter(c)], delim, verbatim)
        else Bad
    else ScanFrom(src, p + 1, acc + [x], delim, verbatim)
  }

  datatype Token = StringLiteral(s: Str) | IntegerLiteral(v: int) | End | LexError

  function TokenOf(r: Scan, delim: int): Token {
    if r.Bad? then LexError
    else if delim != APOSTROPHE then StringLiteral(r.s)
    else if |r.s| == 1 then IntegerLiteral(r.s[0])
    else LexError
  }

  class LVLexer {
    const src: Str
    var pos: nat                // `_currdata` is the character here
    var longstr: Str
    var failed: bool            // an error was raised

    constructor (src: Str, pos: nat)
      ensures this.src == src && this.pos == pos && !failed
    {
      this.src, this.pos, longstr, failed := src, pos, [], false;
    }

    function Cur(): int
      reads this`pos
    {
      At(src, pos)
    }

    method Next()
      modifies this`pos
      ensures pos == old(pos) + 1
    {
      pos := pos + 1;
    }

    /** Skip the escape's letter and collect digits. */
    method ProcessStringHexEscape(maxdigits: nat) returns (dest: Str)
      modifies this`pos, this`failed
      ensures dest == Digits(src, old(pos) + 1, maxdigits) && pos == old(pos) + 1 + |dest|
      ensures failed <==> old(failed) || (dest == [] && maxdigits > 0)
    {
      Next();
      if !IsHex(Cur()) {
        failed := failed || maxdigits > 0;
      }
      dest := [];
      var n := 0;
      while IsHex(Cur()) && n < maxdigits
        invariant 0 <= n <= maxdigits && |dest| == n && pos == old(pos) + 1 + n
        invariant dest + Digits(src, pos, maxdigits - n) == Digits(src, old(pos) + 1, maxdigits)
        invariant failed <==> old(failed) || (maxdigits > 0 && !IsHex(At(src, old(pos) + 1)))
        decreases maxdigits - n
      {
        dest := dest + [Cur()];
        n := n + 1;
        Next();
      }
    }

    method ReadString(ndelim: int, verbatim: bool) returns (tok: Token)
      requires ndelim != EOB
      modifies this
      ensures if At(src, old(pos) + 1) == EOB then tok == End
        else tok == TokenOf(ScanFrom(src, old(pos) + 1, [], ndelim, verbatim), ndelim)
      ensures var r := ScanFrom(src, old(pos) + 1, [], ndelim, verbatim); tok.StringLiteral? ==> r.Closed? && pos == r.p
    {
      longstr := [];
      Next();
      if Cur() == EOB {
        return End;
      }
      ghost var first := pos;
      while true
        invariant pos >= first
          && ScanFrom(src, pos, longstr, ndelim, verbatim) == ScanFrom(src, first, [], ndelim, verbatim)
        decreases |src| - pos
      {
        var x := Cur();
        if x == ndelim {
          Next();
          if !(verbatim && Cur() == QUOTE) {
            break;
          }
          longstr := longstr + [Cur()];
          Next();
        } else if x == EOB {
          return LexError;
        } else if x == NEWLINE {
          if !verbatim {
            return LexError;
          }
          longstr := longstr + [x];
          Next();
        } else if x == BACKSLASH && !verbatim {
          var ok := ReadEscape(ndelim);
          if !ok {
            return LexError;
          }
        } else {
          longstr := longstr + [x];
          Next();
        }
      }
      if ndelim == APOSTROPHE {
        if |longstr| != 1 {
          return LexError;
        }
        return IntegerLiteral(longstr[0]);
      }
      return StringLiteral(longstr);
    }

    /** The escape sequence whose backslash is the current character. */
    method ReadEscape(ghost delim: int) returns (ok: bool)
      requires Cur() == BACKSLASH != delim
      modifies this
      ensures pos > old(pos)
      ensures ScanFrom(src, old(pos), old(longstr), delim, false)
        == if ok then ScanFrom(src, pos, longstr, delim, false) else Bad
    {
      hide ScanFrom, Digits, Number, Utf8, Letter;
      EscapeStep(src, pos, longstr, delim);
      Next();
      var c := Cur();
      if c == 'x' as int {
        failed := false;
        var d := ProcessStringHexEscape(2);
        if failed {
          return false;
        }
        longstr := longstr + [Number(d) % 256];
      } else if c == 'u' as int || c == 'U' as int {
        failed := false;
        var d := ProcessStringHexEscape(8);
        if failed {
          return false;
        }
        longstr := longstr + Utf8(Number(d));
      } else if Letter(c) >= 0 {
        longstr := longstr + [Letter(c)];
        Next();
      } else {
        return false;
      }
      return true;
    }
  }

  // --- reading back what was written

  /** Text that starts with `t` at position `p`. */
  predicate Starts(src: Str, p: nat, t: Str) {
    p + |t| <= |src| && forall k :: 0 <= k < |t| ==> src[p + k] == t[k]
  }

  /** What an escape sequence adds, and where it ends. */
  lemma EscapeStep(src: Str, p: nat, acc: Str, delim: int)
    requires At(src, p) == BACKSLASH != delim
    ensures var c := At(src, p + 1); var r := ScanFrom(src, p, acc, delim, false);
      if c == 'x' as int then
        var d := Digits(src, p + 2, 2);
        r == if d == [] then Bad else ScanFrom(src, p + 2 + |d|, acc + [Number(d) % 256], delim, false)
      else if c == 'u' as int || c == 'U' as int then
        var d := Digits(src, p + 2, 8);
        r == if d == [] then Bad else ScanFrom(src, p + 2 + |d|, acc + Utf8(Number(d)), delim, false)
      else if Letter(c) >= 0 then r == ScanFrom(src, p + 2, acc + [Letter(c)], delim, false)
      else r == Bad
  {
    hide Digits, Number, Utf8, Letter;
  }

  lemma HexBack(d: int)
    requires 0 <= d < 16
    ensures IsHex(HexDigit(d)) && HexValue(HexDigit(d)) == d
  {
  }

  /** Two digits are one character. */
  lemma TwoDigits(src: Str, p: nat, a: int, b: int)
    requires 0 <= a < 16 && 0 <= b < 16 && p + 2 <= |src| && src[p] == HexDigit(a) && src[p + 1] == HexDigit(b)
    ensures Digits(src, p, 2) == [HexDigit(a), HexDigit(b)] && Number(Digits(src, p, 2)) == a * 16 + b
  {
    HexBack(a);
    HexBack(b);
    assert Digits(src, p + 2, 0) == [];
    assert Digits(src, p + 1, 1) == [HexDigit(b)];
    var d := [HexDigit(a), HexDigit(b)];
    assert d[..1] == [HexDigit(a)] && [HexDigit(a)][..0] == [];
    assert Number([HexDigit(a)]) == Number([]) * 16 + HexValue(HexDigit(a));
  }

  /** A 7-bit character reads back as itself. */
  lemma CharBack(src: Str, p: nat, acc: Str, c: int)
    requires 0 <= c < 128 && Starts(src, p, EscapeChar(c))
    ensures ScanFrom(src, p, acc, QUOTE, false) == ScanFrom(src, p + |EscapeChar(c)|, acc + [c], QUOTE, false)
  {
    hide ScanFrom, Digits, Number;
    var e := EscapeChar(c);
    if !Printable(c) && c != 0 {
      assert |e| == 4 && e[0] == BACKSLASH && e[1] == 'x' as int && e[2] == HexDigit(c / 16)
        && e[3] == HexDigit(c % 16);
      TwoDigits(src, p + 2, c / 16, c % 16);
      EscapeStep(src, p, acc, QUOTE);
    } else if |e| == 2 {
      assert e[0] == BACKSLASH && Letter(e[1]) == c;
      EscapeStep(src, p, acc, QUOTE);
    } else {
      assert e == [c] && src[p + 0] == e[0];
      PlainStep(src, p, acc, c);
    }
  }

  lemma PlainStep(src: Str, p: nat, acc: Str, c: int)
    requires p < |src| && src[p] == c && Ordinary(c)
    ensures ScanFrom(src, p, acc, QUOTE, false) == ScanFrom(src, p + 1, acc + [c], QUOTE, false)
  {
  }

  /** Any other reads back as seven: the first two of the eight digits make one, the rest stand for themselves. */
  lemma WideChar(src: Str, p: nat, acc: Str, c: int) returns (seven: Str)
    requires 128 <= c < 256 && Starts(src, p, EscapeChar(c))
    ensures |seven| == 7
      && ScanFrom(src, p, acc, QUOTE, false) == ScanFrom(src, p + |EscapeChar(c)|, acc + seven, QUOTE, false)
  {
    hide ScanFrom, Digits, Number;
    var e := EscapeChar(c);
    assert |e| == 10 && e[0] == BACKSLASH && e[1] == 'x' as int && e[2] == HexDigit(15) && e[3] == HexDigit(15);
    TwoDigits(src, p + 2, 15, 15);
    EscapeStep(src, p, acc, QUOTE);
    var t := e[4..];
    seven := [255] + t;
    assert Starts(src, p + 4, t) by {
      forall k | 0 <= k < |t| ensures src[p + 4 + k] == t[k] {
        assert src[p + (4 + k)] == e[4 + k];
      }
    }
    PlainChars(src, p + 4, acc + [255], t);
    assert acc + [255] + t == acc + seven;
  }

  predicate Ordinary(c: int) {
    c != QUOTE && c != EOB && c != NEWLINE && c != BACKSLASH
  }

  lemma {:induction false} PlainChars(src: Str, p: nat, acc: Str, t: Str)
    requires forall k :: 0 <= k < |t| ==> Ordinary(t[k])
    ensures Starts(src, p, t) ==> ScanFrom(src, p, acc, QUOTE, false) == ScanFrom(src, p + |t|, acc + t, QUOTE, false)
    decreases |t|
  {
    hide ScanFrom;
    if t != [] && Starts(src, p, t) {
      assert src[p + 0] == t[0];
      PlainStep(src, p, acc, t[0]);
      assert Starts(src, p + 1, t[1..]) by {
        forall k | 0 <= k < |t[1..]| ensures src[p + 1 + k] == t[1..][k] {
          assert src[p + (1 + k)] == t[1 + k];
        }
      }
      PlainChars(src, p + 1, acc + [t[0]], t[1..]);
      assert acc + [t[0]] + t[1..] == acc + t;
    } else {
      assert t == [] ==> acc + t == acc;
    }
  }

  predicate SevenBit(s: Str) {
    forall k :: 0 <= k < |s| ==> 0 <= s[k] < 128
  }

  /** The escape of a string where no bound is in the way. */
  function Uncut(s: Str): Str {
    if s == [] then [] else Uncut(s[..|s| - 1]) + EscapeChar(s[|s| - 1])
  }

  /** What scanning an escaped string adds to what was read. */
  lemma {:induction false} ScanEscaped(src: Str, p: nat, acc: Str, s: Str) returns (back: Str)
    requires Bytes(s) && Starts(src, p, Uncut(s))
    ensures ScanFrom(src, p, acc, QUOTE, false) == ScanFrom(src, p + |Uncut(s)|, acc + back, QUOTE, false)
    ensures SevenBit(s) ==> back == s
    ensures |back| >= |s| && (!SevenBit(s) ==> |back| > |s|)
    decreases |s|
  {
    hide *;
    if s == [] {
      back := [];
      NothingEscaped(acc);
    } else {
      var init, c := s[..|s| - 1], s[|s| - 1];
      EscapedSnoc(s);
      SplitStarts(src, p, Uncut(init), EscapeChar(c));
      var q := p + |Uncut(init)|;
      var first := ScanEscaped(src, p, acc, init);
      var more := EscapedOne(src, q, acc + first, c);
      back := first + more;
      Assoc(acc, first, more);
      BackSnoc(s, first, more);
    }
  }

  lemma NothingEscaped(acc: Str)
    ensures Uncut([]) == [] && acc + [] == acc && SevenBit([])
  {
  }

  lemma Assoc(a: Str, b: Str, c: Str)
    ensures (a + b) + c == a + (b + c)
  {
  }

  lemma EscapedSnoc(s: Str)
    requires s != []
    ensures Uncut(s) == Uncut(s[..|s| - 1]) + EscapeChar(s[|s| - 1])
    ensures |Uncut(s)| == |Uncut(s[..|s| - 1])| + |EscapeChar(s[|s| - 1])|
    ensures Bytes(s) ==> Bytes(s[..|s| - 1]) && 0 <= s[|s| - 1] < 256
  {
    hide EscapeChar;
  }

  lemma BackSnoc(s: Str, first: Str, more: Str)
    requires s != [] && Bytes(s)
    requires var init, c := s[..|s| - 1], s[|s| - 1];
      && (SevenBit(init) ==> first == init) && |first| >= |init| && (!SevenBit(init) ==> |first| > |init|)
      && if c < 128 then more == [c] else |more| == 7
    ensures SevenBit(s) ==> first + more == s
    ensures |first + more| >= |s| && (!SevenBit(s) ==> |first + more| > |s|)
  {
    assert s == s[..|s| - 1] + [s[|s| - 1]];
    assert SevenBit(s) <==> SevenBit(s[..|s| - 1]) && s[|s| - 1] < 128;
  }

  lemma EscapedOne(src: Str, q: nat, acc: Str, c: int) returns (more: Str)
    requires 0 <= c < 256 && Starts(src, q, EscapeChar(c))
    ensures ScanFrom(src, q, acc, QUOTE, false) == ScanFrom(src, q + |EscapeChar(c)|, acc + more, QUOTE, false)
    ensures if c < 128 then more == [c] else |more| == 7
  {
    hide *;
    if c < 128 {
      CharBack(src, q, acc, c);
      more := [c];
    } else {
      more := WideChar(src, q, acc, c);
    }
  }

  lemma SplitStarts(src: Str, p: nat, a: Str, b: Str)
    requires Starts(src, p, a + b)
    ensures Starts(src, p, a) && Starts(src, p + |a|, b)
  {
    forall k | 0 <= k < |a| ensures src[p + k] == a[k] {
      assert src[p + k] == (a + b)[k];
    }
    forall k | 0 <= k < |b| ensures src[p + |a| + k] == b[k] {
      assert src[p + (|a| + k)] == (a + b)[|a| + k];
    }
  }

  // --- where the bound is in the way

  /** Every escape fits. */
  predicate Fits(s: Str, size: nat) {
    forall k :: 0 <= k < |s| && Formatted(s[k]) ==> |EscapeChar(s[k])| < 4 * size
  }

  lemma {:induction false} FitsUncut(s: Str, size: nat, scratch: int -> int)
    requires Fits(s, size)
    ensures Escaped(s, size, scratch) == Uncut(s)
  {
    if s != [] {
      var init := s[..|s| - 1];
      forall k | 0 <= k < |init| && Formatted(init[k]) ensures |EscapeChar(init[k])| < 4 * size {
        assert init[k] == s[k];
      }
      FitsUncut(init, size, scratch);
      assert s[|s| - 1] == s[..][|s| - 1];
    }
  }

  /** A cut escape ends in a NUL, which ends the text: the literal is never closed. */
  lemma CutIsBad(src: Str, p: nat, acc: Str, c: int, size: nat, scratch: int -> int, at: nat)
    requires 0 <= c < 256 && Formatted(c) && 0 < size && 4 * size <= |EscapeChar(c)|
      && Starts(src, p, EscapeIn(c, size, scratch, at))
    ensures ScanFrom(src, p, acc, QUOTE, false) == Bad
  {
    hide ScanFrom, Digits, Number;
    var t, e := EscapeChar(c), EscapeIn(c, size, scratch, at);
    assert size == 1 || (size == 2 && c >= 128);
    assert e[4 * size - 1] == EOB && forall k :: 0 <= k < 4 * size - 1 ==> e[k] == t[k];
    assert t[0] == BACKSLASH && t[1] == 'x' as int;
    assert src[p + 0] == e[0] && src[p + 1] == e[1] && src[p + 2] == e[2] && src[p + 3] == e[3];
    if size == 1 {
      OneDigit(src, p + 2);
      EscapeStep(src, p, acc, QUOTE);
      EndStep(src, p + 3, acc + [Number(Digits(src, p + 2, 2)) % 256]);
    } else {
      assert src[p + 4] == e[4] && src[p + 5] == e[5] && src[p + 6] == e[6] && src[p + 7] == e[7];
      TwoDigits(src, p + 2, 15, 15);
      EscapeStep(src, p, acc, QUOTE);
      var f := 'f' as int;
      PlainChars(src, p + 4, acc + [255], [f, f, f]);
      assert Starts(src, p + 4, [f, f, f]);
      EndStep(src, p + 7, acc + [255] + [f, f, f]);
    }
  }

  lemma OneDigit(src: Str, p: nat)
    requires p + 1 < |src| && IsHex(src[p]) && src[p + 1] == EOB
    ensures Digits(src, p, 2) == [src[p]]
  {
    assert Digits(src, p + 1, 1) == [];
  }

  lemma EndStep(src: Str, p: nat, acc: Str)
    requires p < |src| && src[p] == EOB
    ensures ScanFrom(src, p, acc, QUOTE, false) == Bad
  {
  }

  /** A string in which some escape is cut: the first cut ends the text. */
  lemma {:induction false} CutString(src: Str, p: nat, acc: Str, s: Str, size: nat, scratch: int -> int)
    requires Bytes(s) && size > 0 && !Fits(s, size) && Starts(src, p, Escaped(s, size, scratch))
    ensures ScanFrom(src, p, acc, QUOTE, false) == Bad
    decreases |s|
  {
    hide ScanFrom, EscapeIn, EscapeChar;
    var init, c := s[..|s| - 1], s[|s| - 1];
    var first := Escaped(init, size, scratch);
    SplitStarts(src, p, first, EscapeIn(c, size, scratch, |first|));
    if Fits(init, size) {
      FitsUncut(init, size, scratch);
      var back := ScanEscaped(src, p, acc, init);
      CutIsBad(src, p + |first|, acc + back, c, size, scratch, |first|);
    } else {
      CutString(src, p, acc, init, size, scratch);
    }
  }

  /** The strings that survive: of 7-bit characters, NUL included, but for a lone control character. */
  predicate Survives(s: Str) {
    SevenBit(s) && (|s| != 1 || Printable(s[0]) || s[0] == 0)
  }

  lemma SurvivesFits(s: Str)
    requires Bytes(s) && SevenBit(s)
    ensures Fits(s, |s|) <==> Survives(s)
  {
    forall k | 0 <= k < |s| && Formatted(s[k]) ensures |EscapeChar(s[k])| == 4 {
    }
    if |s| == 1 && Formatted(s[0]) {
      assert |EscapeChar(s[0])| == 4;
    }
  }

  /** Escaping and reading back is the identity exactly on the strings that survive, whatever was in the buffer
      and whatever follows the literal. */
  lemma EscapeReadIff(s: Str, scratch: int -> int, rest: Str)
    requires Bytes(s)
    ensures var e := Escaped(s, |s|, scratch);
      ScanFrom([QUOTE] + e + [QUOTE] + rest, 1, [], QUOTE, false) == Closed(s, |e| + 2) <==> Survives(s)
    ensures var e := Escaped(s, |s|, scratch); var r := ScanFrom([QUOTE] + e + [QUOTE] + rest, 1, [], QUOTE, false);
      r.Closed? ==> r.p == |e| + 2
  {
    hide ScanFrom, Fits, Survives, Escaped, SevenBit;
    var e := Escaped(s, |s|, scratch);
    var src := [QUOTE] + e + [QUOTE] + rest;
    assert Starts(src, 1, e);
    if Fits(s, |s|) {
      FitsUncut(s, |s|, scratch);
      var back := ScanEscaped(src, 1, [], s);
      Closing(src, s, e, back, rest);
      if SevenBit(s) {
        SurvivesFits(s);
      } else {
        NotSeven(s);
      }
    } else {
      NotEmpty(s);
      CutString(src, 1, [], s, |s|, scratch);
      if SevenBit(s) {
        SurvivesFits(s);
      } else {
        NotSeven(s);
      }
    }
  }

  lemma NotSeven(s: Str)
    requires !SevenBit(s)
    ensures !Survives(s)
  {
  }

  lemma NotEmpty(s: Str)
    requires !Fits(s, |s|)
    ensures |s| > 0
  {
  }

  lemma Closing(src: Str, s: Str, e: Str, back: Str, rest: Str)
    requires src == [QUOTE] + e + [QUOTE] + rest
    requires ScanFrom(src, 1, [], QUOTE, false) == ScanFrom(src, 1 + |e|, [] + back, QUOTE, false)
    ensures ScanFrom(src, 1, [], QUOTE, false) == Closed(back, |e| + 2)
  {
    assert src[1 + |e|] == QUOTE;
    assert [] + back == back;
  }

  /** A lone newline is escaped to a backslash, x, 0 and NUL, and does not read back. */
  lemma LoneNewline(s: Str, scratch: int -> int, rest: Str)
    requires s == [NEWLINE]
    ensures Escaped(s, 1, scratch) == [BACKSLASH, 'x' as int, '0' as int, EOB]
    ensures ScanFrom([QUOTE] + Escaped(s, 1, scratch) + [QUOTE] + rest, 1, [], QUOTE, false) == Bad
  {
    hide ScanFrom, EscapeIn, EscapeChar;
    var init := s[..|s| - 1];
    assert Escaped(init, 1, scratch) == [];
    NewlineCut(scratch);
    var e := Escaped(s, 1, scratch);
    assert e == EscapeIn(NEWLINE, 1, scratch, 0);
    var src := [QUOTE] + e + [QUOTE] + rest;
    assert Starts(src, 1, e);
    CutIsBad(src, 1, [], NEWLINE, 1, scratch, 0);
  }

  lemma NewlineCut(scratch: int -> int)
    ensures Formatted(NEWLINE) && |EscapeChar(NEWLINE)| == 4
    ensures EscapeIn(NEWLINE, 1, scratch, 0) == [BACKSLASH, 'x' as int, '0' as int, EOB]
  {
    assert EscapeChar(NEWLINE) == [BACKSLASH, 'x' as int, '0' as int, 'a' as int];
  }

  /** No escape starts with a NUL. */
  lemma {:induction false} Visible(s: Str, size: nat, scratch: int -> int)
    requires s != [] && size > 0
    ensures var e := Escaped(s, size, scratch); e != [] && e[0] != EOB
    decreases |s|
  {
    var init := s[..|s| - 1];
    if init != [] {
      Visible(init, size, scratch);
    }
  }

  /** The same with the methods that do it. */
  method EscapeAndRead(s: Str, scratch: int -> int) returns (tok: Token)
    requires Bytes(s)
    ensures tok == StringLiteral(s) <==> Survives(s)
  {
    hide ScanFrom, Survives, Escaped;
    var e := StringEscape(s, scratch);
    var lexer := new LVLexer([QUOTE] + e + [QUOTE], 0);
    if s != [] {
      Visible(s, |s|, scratch);
    } else {
      NothingWritten(scratch);
    }
    tok := lexer.ReadString(QUOTE, false);
    EscapeReadIff(s, scratch, []);
    assert [QUOTE] + e + [QUOTE] + [] == [QUOTE] + e + [QUOTE];
  }

  lemma NothingWritten(scratch: int -> int)
    ensures Escaped([], 0, scratch) == []
  {
  }
}
