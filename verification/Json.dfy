/** JSON values, their text, and the encoder that writes it: `descent_level`. */
module Json {

  /** A table is its entries in iteration order. A floating-point number is known by its text: the one it is
      written as, or was read from. */
  datatype Json =
    | Null
    | Bool(b: bool)
    | Int(i: int)
    | Float(text: string)
    | Str(s: string)
    | Array(items: seq<Json>)
    | Table(members: seq<Member>)
    | Other                          // closures, instances, ...: not JSON

  datatype Member = Member(key: Json, val: Json)

  // --- numbers

  function Digit(d: nat): (c: char)
    requires d < 10
  {
    '0' + d as char
  }

  predicate IsDigit(c: char) {
    '0' <= c <= '9'
  }

  function DigitValue(c: char): nat
    requires IsDigit(c)
  {
    c as int - '0' as int
  }

  function Decimal(n: nat): (s: string)
    ensures |s| > 0 && forall k :: 0 <= k < |s| ==> IsDigit(s[k])
  {
    if n < 10 then [Digit(n)] else Decimal(n / 10) + [Digit(n % 10)]
  }

  function IntText(i: int): (s: string)
    ensures |s| > 0 && forall k :: 0 <= k < |s| ==> IsDigit(s[k]) || s[k] == '-'
  {
    if i < 0 then "-" + Decimal(-i) else Decimal(i)
  }

  // --- the text of a value

  function Print(j: Json): string
    decreases j, 0
  {
    match j
    case Null => "null"
    case Bool(b) => if b then "true" else "false"
    case Int(i) => IntText(i)
    case Float(text) => text
    case Str(s) => "\"" + s + "\""
    case Array(items) => "[" + PrintItems(items) + "]"
    case Table(members) => "{" + PrintMembers(members) + "}"
    case Other => ""
  }

  function PrintItems(items: seq<Json>): string
    decreases items, 1
  {
    if items == [] then ""
    else if |items| == 1 then Print(items[0])
    else Print(items[0]) + "," + PrintItems(items[1..])
  }

  function PrintMembers(members: seq<Member>): string
    decreases members, 1
  {
    if members == [] then ""
    else if |members| == 1 then PrintMember(members[0])
    else PrintMember(members[0]) + "," + PrintMembers(members[1..])
  }

  function PrintMember(m: Member): string
    decreases m, 1
  {
    Print(m.key) + ":" + Print(m.val)
  }

  // --- values the encoder is for

  /** A character that stands for itself in a string literal. */
  predicate Plain(c: char) {
    c != '"' && c != '\\' && c != '\0'
  }

  predicate PlainText(s: string) {
    forall k :: 0 <= k < |s| ==> Plain(s[k])
  }

  /** What "%g" writes: digits, signs, a point, an exponent, "inf" or "nan". */
  predicate NumberText(t: string) {
    t != "" && forall k :: 0 <= k < |t| ==> IsDigit(t[k]) || t[k] in ".+-einfa"
  }

  predicate Keys(members: seq<Member>) {
    && (forall k :: 0 <= k < |members| ==> members[k].key.Str?)
    && (forall k, l :: 0 <= k < l < |members| ==> members[k].key != members[l].key)
  }

  /** Tables have distinct string keys; strings have no quote, backslash or NUL. */
  predicate Clean(j: Json)
    decreases j, 0
  {
    match j
    case Float(text) => NumberText(text)
    case Str(s) => PlainText(s)
    case Array(items) => CleanItems(items)
    case Table(members) => Keys(members) && CleanMembers(members)
    case Other => false
    case _ => true
  }

  predicate CleanItems(items: seq<Json>)
    decreases items, 1
  {
    items == [] || (Clean(items[0]) && CleanItems(items[1..]))
  }

  predicate CleanMembers(members: seq<Member>)
    decreases members, 1
  {
    members == [] || (CleanMember(members[0]) && CleanMembers(members[1..]))
  }

  predicate CleanMember(m: Member)
    decreases m, 1
  {
    m.key.Str? && Clean(m.key) && Clean(m.val)
  }

  /** Every key is a string: for another, the encoder would write the key before it. */
  predicate Keyed(j: Json)
    decreases j, 0
  {
    match j
    case Array(items) => forall k :: 0 <= k < |items| ==> Keyed(items[k])
    case Table(members) => forall k :: 0 <= k < |members| ==> KeyedMember(members[k])
    case _ => true
  }

  predicate KeyedMember(m: Member)
    decreases m, 1
  {
    m.key.Str? && Keyed(m.val)
  }

  // --- the encoder

  class JsonBuffer {
    var dest: string

    constructor ()
      ensures dest == ""
    {
      dest := "";
    }

    method Add(text: string)
      modifies this
      ensures dest == old(dest) + text
    {
      dest := dest + text;
    }

    method DescentLevel(j: Json)
      requires Keyed(j)
      modifies this
      ensures dest == old(dest) + Print(j)
      decreases j, 0
    {
      hide PrintItems, PrintMembers, IntText;
      match j {
        case Str(s) => Quoted(s);
        case Float(text) => Add(text);
        case Int(i) => Add(IntText(i));
        case Bool(b) => Add(if b then "true" else "false");
        case Null => Add("null");
        case Table(members) =>
          Add("{");
          DescentMembers(members);
          Add("}");
        case Array(items) =>
          Add("[");
          DescentItems(items);
          Add("]");
        case Other =>
      }
    }

    method Quoted(s: string)
      modifies this
      ensures dest == old(dest) + Print(Str(s))
    {
      Add("\"");
      Add(s);
      Add("\"");
      assert old(dest) + "\"" + s + "\"" == old(dest) + ("\"" + s + "\"");
    }

    method DescentMembers(members: seq<Member>)
      requires forall k :: 0 <= k < |members| ==> KeyedMember(members[k])
      modifies this
      ensures dest == old(dest) + PrintMembers(members)
      decreases members, 1
    {
      hide Print;
      var count, next := |members|, 0;
      while next < |members|
        invariant 0 <= next <= |members| && count == |members| - next
        invariant dest + PrintMembers(members[next..]) == old(dest) + PrintMembers(members)
      {
        ghost var rest := members[next..];
        assert rest[0] == members[next] && rest[1..] == members[next + 1..];
        DescentMember(members[next]);
        if count > 1 {
          Add(",");
        }
        count := count - 1;
        next := next + 1;
      }
    }

    method DescentMember(m: Member)
      requires KeyedMember(m)
      modifies this
      ensures dest == old(dest) + PrintMember(m)
      decreases m, 1
    {
      DescentLevel(m.key);
      Add(":");
      DescentLevel(m.val);
    }

    method DescentItems(items: seq<Json>)
      requires forall k :: 0 <= k < |items| ==> Keyed(items[k])
      modifies this
      ensures dest == old(dest) + PrintItems(items)
      decreases items, 1
    {
      hide Print;
      var count, next := |items|, 0;
      while next < |items|
        invariant 0 <= next <= |items| && count == |items| - next
        invariant dest + PrintItems(items[next..]) == old(dest) + PrintItems(items)
      {
        ghost var rest := items[next..];
        assert rest[0] == items[next] && rest[1..] == items[next + 1..];
        DescentLevel(items[next]);
        if count > 1 {
          Add(",");
        }
        count := count - 1;
        next := next + 1;
      }
    }
  }
}
