/** `LVStringTable`: every live string is in the bucket of its hash, and no two have the same contents. */
module StringTable {

  class LVString {
    const val: string
    const hash: int

    constructor (val: string, hash: int)
      ensures this.val == val && this.hash == hash
    {
      this.val, this.hash := val, hash;
    }
  }

  type Buckets = seq<seq<LVString>>

  /** hash & (n - 1), for a power of two. */
  function Slot(hash: int, n: int): (h: int)
    requires n > 0
    ensures 0 <= h < n
  {
    hash % n
  }

  ghost predicate At(t: Buckets, b: int, i: int) {
    0 <= b < |t| && 0 <= i < |t[b]|
  }

  /** Every string is where its hash says. */
  ghost predicate Placed(t: Buckets, hash: string -> int) {
    forall b, i :: At(t, b, i) ==> t[b][i].hash == hash(t[b][i].val) && Slot(t[b][i].hash, |t|) == b
  }

  /** Equal contents, same place: so in particular the same object. */
  ghost predicate Unique(t: Buckets) {
    forall b, i, c, j :: At(t, b, i) && At(t, c, j) && t[b][i].val == t[c][j].val ==> b == c && i == j
  }

  /** The strings in the table. */
  ghost function Live(t: Buckets): set<LVString> {
    set b, i | 0 <= b < |t| && 0 <= i < |t[b]| :: t[b][i]
  }

  lemma LiveAt(t: Buckets, b: int, i: int)
    requires At(t, b, i)
    ensures t[b][i] in Live(t)
  {
  }

  lemma Where(t: Buckets, x: LVString) returns (b: int, i: int)
    requires x in Live(t)
    ensures At(t, b, i) && t[b][i] == x
  {
    b, i :| 0 <= b < |t| && 0 <= i < |t[b]| && t[b][i] == x;
  }

  function Count(t: Buckets): nat {
    if t == [] then 0 else Count(t[..|t| - 1]) + |t[|t| - 1]|
  }

  lemma {:induction false} CountUpdate(t: Buckets, b: int, l: seq<LVString>)
    requires 0 <= b < |t|
    ensures Count(t[b := l]) == Count(t) - |t[b]| + |l|
  {
    var n := |t| - 1;
    if b < n {
      CountUpdate(t[..n], b, l);
      assert t[b := l][..n] == t[..n][b := l];
    } else {
      assert t[b := l][..n] == t[..n];
    }
  }

  lemma {:induction false} CountEmpty(t: Buckets)
    requires forall b :: 0 <= b < |t| ==> t[b] == []
    ensures Count(t) == 0
  {
    if t != [] {
      CountEmpty(t[..|t| - 1]);
    }
  }

  /** A string pushed in front of its bucket. */
  function Pushed(t: Buckets, b: int, s: LVString): (u: Buckets)
    requires 0 <= b < |t|
    ensures |u| == |t| && u[b] == [s] + t[b] && forall c :: 0 <= c < |t| && c != b ==> u[c] == t[c]
  {
    t[b := [s] + t[b]]
  }

  lemma PushPlaced(t: Buckets, hash: string -> int, b: int, s: LVString)
    requires Placed(t, hash) && 0 <= b < |t| && s.hash == hash(s.val) && Slot(s.hash, |t|) == b
    ensures Placed(Pushed(t, b, s), hash)
  {
    var u := Pushed(t, b, s);
    forall c, i | At(u, c, i) ensures u[c][i].hash == hash(u[c][i].val) && Slot(u[c][i].hash, |u|) == c {
      if c != b {
        assert At(t, c, i);
      } else if i > 0 {
        assert At(t, b, i - 1) && u[b][i] == t[b][i - 1];
      }
    }
  }

  lemma PushUnique(t: Buckets, b: int, s: LVString)
    requires Unique(t) && 0 <= b < |t| && forall c, i :: At(t, c, i) ==> t[c][i].val != s.val
    ensures Unique(Pushed(t, b, s))
  {
    var u := Pushed(t, b, s);
    forall c, i | At(u, c, i) ensures (c == b && i == 0)
      || (At(t, c, Under(b, c, i)) && u[c][i] == t[c][Under(b, c, i)]) {
    }
  }

  /** Where a string was before something was pushed onto bucket b. */
  function Under(b: int, c: int, i: int): int {
    if c == b then i - 1 else i
  }

  lemma PushLive(t: Buckets, b: int, s: LVString)
    requires 0 <= b < |t|
    ensures Live(Pushed(t, b, s)) == Live(t) + {s}
  {
    hide Live;
    var u := Pushed(t, b, s);
    LiveAt(u, b, 0);
    forall x | x in Live(t) ensures x in Live(u) {
      var c, i := Where(t, x);
      LiveAt(u, c, if c == b then i + 1 else i);
    }
    forall x | x in Live(u) && x != s ensures x in Live(t) {
      var c, i := Where(u, x);
      LiveAt(t, c, Under(b, c, i));
    }
  }

  /** A string taken out of its bucket. */
  function Dropped(t: Buckets, b: int, k: int): (u: Buckets)
    requires 0 <= b < |t| && 0 <= k < |t[b]|
    ensures |u| == |t| && |u[b]| == |t[b]| - 1
      && (forall i :: 0 <= i < |u[b]| ==> u[b][i] == t[b][if i < k then i else i + 1])
    ensures forall c :: 0 <= c < |t| && c != b ==> u[c] == t[c]
  {
    t[b := t[b][..k] + t[b][k + 1..]]
  }

  function Before(b: int, k: int, c: int, i: int): int {
    if c == b && i >= k then i + 1 else i
  }

  lemma DropKeeps(t: Buckets, hash: string -> int, b: int, k: int)
    requires Placed(t, hash) && Unique(t) && At(t, b, k)
    ensures Placed(Dropped(t, b, k), hash) && Unique(Dropped(t, b, k))
  {
    var u := Dropped(t, b, k);
    forall c, i | At(u, c, i) ensures At(t, c, Before(b, k, c, i)) && u[c][i] == t[c][Before(b, k, c, i)] {
    }
  }

  lemma DropLive(t: Buckets, b: int, k: int)
    requires Unique(t) && At(t, b, k)
    ensures Live(Dropped(t, b, k)) == Live(t) - {t[b][k]}
  {
    hide Live;
    var u := Dropped(t, b, k);
    forall x | x in Live(u) ensures x in Live(t) - {t[b][k]} {
      var c, i := Where(u, x);
      LiveAt(t, c, Before(b, k, c, i));
    }
    forall x | x in Live(t) && x != t[b][k] ensures x in Live(u) {
      var c, i := Where(t, x);
      LiveAt(u, c, if c == b && i > k then i - 1 else i);
    }
  }

  /** Two live strings with equal contents are one object. */
  lemma Canonical(t: Buckets, x: LVString, y: LVString)
    requires Unique(t) && x in Live(t) && y in Live(t) && x.val == y.val
    ensures x == y
  {
    hide Live;
    var b, i := Where(t, x);
    var c, j := Where(t, y);
  }

  class LVStringTable {
    const hashstr: string -> int
    var strings: array<seq<LVString>>
    var slotused: int

    ghost predicate Valid()
      reads this, strings
    {
      strings.Length > 0 && Placed(strings[..], hashstr) && Unique(strings[..]) && slotused == Count(strings[..])
    }

    ghost function Strings(): set<LVString>
      reads this, strings
    {
      Live(strings[..])
    }

    constructor (hashstr: string -> int)
      ensures Valid() && fresh(strings) && Strings() == {} && this.hashstr == hashstr
    {
      this.hashstr := hashstr;
      strings := new seq<LVString>[4](_ => []);
      slotused := 0;
      new;
      CountEmpty(strings[..]);
    }

    method AllocNodes(size: int)
      requires size > 0
      modifies this`strings
      ensures fresh(strings) && strings.Length == size && forall b :: 0 <= b < size ==> strings[b] == []
    {
      strings := new seq<LVString>[size](_ => []);
    }

    /** The one string with these contents, made if there was none. */
    method Add(news: string) returns (s: LVString)
      requires Valid()
      modifies this, strings
      ensures Valid() && s.val == news && Strings() == old(Strings()) + {s}
      ensures s !in old(Strings()) ==> fresh(s) && forall x :: x in old(Strings()) ==> x.val != news
      ensures strings == old(strings) || fresh(strings)
    {
      hide Placed, Unique, Count, Live;
      var newhash := hashstr(news);
      var h := Slot(newhash, strings.Length);
      ghost var t := strings[..];
      var i := 0;
      while i < |strings[h]|
        invariant 0 <= i <= |strings[h]| && forall j :: 0 <= j < i ==> strings[h][j].val != news
        decreases |strings[h]| - i
      {
        if |strings[h][i].val| == |news| && strings[h][i].val == news {
          s := strings[h][i];
          Found(t, h, i);
          return;
        }
        i := i + 1;
      }
      NotFound(t, hashstr, news);
      s := new LVString(news, newhash);
      PushPlaced(t, hashstr, h, s);
      PushUnique(t, h, s);
      CountUpdate(t, h, [s] + t[h]);
      PushLive(t, h, s);
      strings[h] := [s] + strings[h];
      slotused := slotused + 1;
      assert strings[..] == Pushed(t, h, s);
      if slotused > strings.Length {
        Resize(strings.Length * 2);
      }
    }

    lemma Found(t: Buckets, b: int, i: int)
      requires At(t, b, i)
      ensures t[b][i] in Live(t) && Live(t) == Live(t) + {t[b][i]}
    {
    }

    lemma NotFound(t: Buckets, hash: string -> int, news: string)
      requires |t| > 0 && Placed(t, hash) && forall j :: 0 <= j < |t[Slot(hash(news), |t|)]| ==>
        t[Slot(hash(news), |t|)][j].val != news
      ensures forall c, i :: At(t, c, i) ==> t[c][i].val != news
      ensures forall x :: x in Live(t) ==> x.val != news
    {
    }

    /** Move every string to the bucket that its hash has in an array of another size. */
    method Resize(size: int)
      requires Valid() && size > 0
      modifies this`strings
      ensures Valid() && fresh(strings) && strings.Length == size && slotused == old(slotused)
      ensures Strings() == old(Strings())
    {
      var oldtable := strings;
      ghost var t := oldtable[..];
      AllocNodes(size);
      CountEmpty(strings[..]);
      var i := 0;
      while i < oldtable.Length
        invariant 0 <= i <= oldtable.Length && oldtable[..] == t && strings != oldtable && fresh(strings)
          && strings.Length == size
        invariant Placed(strings[..], hashstr) && Unique(strings[..]) && Count(strings[..]) == Count(t[..i])
        invariant Live(strings[..]) == Live(t[..i])
      {
        MoveBucket(oldtable, i);
        i := i + 1;
      }
      assert t[..i] == t;
    }

    method MoveBucket(oldtable: array<seq<LVString>>, i: int)
      requires 0 <= i < oldtable.Length && strings != oldtable && strings.Length > 0 && Placed(oldtable[..], hashstr)
        && Unique(oldtable[..])
      requires Placed(strings[..], hashstr) && Unique(strings[..])
      requires Live(strings[..]) == Live(oldtable[..i])
      modifies strings
      ensures oldtable[..] == old(oldtable[..]) && Placed(strings[..], hashstr) && Unique(strings[..])
      ensures Count(strings[..]) == old(Count(strings[..])) + |oldtable[i]|
      ensures Count(oldtable[..i + 1]) == Count(oldtable[..i]) + |oldtable[i]|
      ensures Live(strings[..]) == Live(oldtable[..i + 1])
    {
      hide Placed, Unique, Count, Live;
      ghost var t := oldtable[..];
      var j := 0;
      NoneMoved(t, i);
      while j < |oldtable[i]|
        invariant 0 <= j <= |oldtable[i]| && oldtable[..] == t
        invariant Placed(strings[..], hashstr) && Unique(strings[..])
          && Count(strings[..]) == old(Count(strings[..])) + j
        invariant Live(strings[..]) == Live(t[..i] + [t[i][..j]])
      {
        var p := oldtable[i][j];
        var h := Slot(p.hash, strings.Length);
        ghost var u := strings[..];
        OldPlaced(t, hashstr, i, j);
        Fresh(t, u, i, j);
        PushPlaced(u, hashstr, h, p);
        PushUnique(u, h, p);
        CountUpdate(u, h, [p] + u[h]);
        PushLive(u, h, p);
        MoreLive(t, i, j);
        strings[h] := [p] + strings[h];
        assert strings[..] == Pushed(u, h, p);
        j := j + 1;
      }
      WholeBucket(t, i);
    }

    lemma OldPlaced(t: Buckets, hash: string -> int, i: int, j: int)
      requires Placed(t, hash) && At(t, i, j)
      ensures t[i][j].hash == hash(t[i][j].val)
    {
    }

    lemma NoneMoved(t: Buckets, i: int)
      requires 0 <= i < |t|
      ensures Live(t[..i] + [t[i][..0]]) == Live(t[..i])
    {
      hide Live;
      var u, v := t[..i] + [t[i][..0]], t[..i];
      forall x | x in Live(v) ensures x in Live(u) {
        var b, k := Where(v, x);
        LiveAt(u, b, k);
      }
      forall x | x in Live(u) ensures x in Live(v) {
        var b, k := Where(u, x);
        LiveAt(v, b, k);
      }
    }

    lemma MoreLive(t: Buckets, i: int, j: int)
      requires At(t, i, j)
      ensures Live(t[..i] + [t[i][..j + 1]]) == Live(t[..i] + [t[i][..j]]) + {t[i][j]}
    {
      hide Live;
      var u, v := t[..i] + [t[i][..j]], t[..i] + [t[i][..j + 1]];
      LiveAt(v, i, j);
      forall x | x in Live(u) ensures x in Live(v) {
        var b, k := Where(u, x);
        LiveAt(v, b, k);
      }
      forall x | x in Live(v) && x != t[i][j] ensures x in Live(u) {
        var b, k := Where(v, x);
        LiveAt(u, b, k);
      }
    }

    /** The next string to move is not yet in the new table, nor is another with its contents. */
    lemma Fresh(t: Buckets, u: Buckets, i: int, j: int)
      requires Unique(t) && At(t, i, j) && Live(u) == Live(t[..i] + [t[i][..j]])
      ensures forall c, k :: At(u, c, k) ==> u[c][k].val != t[i][j].val
    {
      hide Live;
      var v := t[..i] + [t[i][..j]];
      forall c, k | At(u, c, k) ensures u[c][k].val != t[i][j].val {
        LiveAt(u, c, k);
        var b, l := Where(v, u[c][k]);
        assert At(t, b, l) && t[b][l] == v[b][l];
      }
    }

    lemma WholeBucket(t: Buckets, i: int)
      requires 0 <= i < |t|
      ensures t[..i] + [t[i][..|t[i]|]] == t[..i + 1] && Count(t[..i + 1]) == Count(t[..i]) + |t[i]|
    {
      assert t[i][..|t[i]|] == t[i];
      var u := t[..i + 1];
      assert u[..|u| - 1] == t[..i] && u[|u| - 1] == t[i];
    }

    /** Take out exactly this string. */
    method Remove(bs: LVString)
      requires Valid() && bs in Strings()
      modifies this, strings
      ensures Valid() && strings == old(strings)
      ensures Strings() == old(Strings()) - {bs}
    {
      hide Placed, Unique, Count, Live;
      var h := Slot(bs.hash, strings.Length);
      ghost var t := strings[..];
      Somewhere(t, hashstr, bs);
      var i := 0;
      while strings[h][i] != bs
        invariant 0 <= i < |strings[h]| && exists k :: i <= k < |strings[h]| && strings[h][k] == bs
        decreases |strings[h]| - i
      {
        i := i + 1;
      }
      DropKeeps(t, hashstr, h, i);
      CountUpdate(t, h, t[h][..i] + t[h][i + 1..]);
      DropLive(t, h, i);
      strings[h] := strings[h][..i] + strings[h][i + 1..];
      slotused := slotused - 1;
      assert strings[..] == Dropped(t, h, i);
    }

    /** Handles compare as the contents do, whatever else is added meanwhile. */
    method AddAll(news: seq<string>) returns (handles: seq<LVString>)
      requires Valid()
      modifies this, strings
      ensures Valid() && |handles| == |news| && forall i :: 0 <= i < |news| ==> handles[i].val == news[i]
      ensures forall i, j :: 0 <= i < |news| && 0 <= j < |news| ==> (handles[i] == handles[j] <==> news[i] == news[j])
      ensures Strings() == old(Strings()) + (set i | 0 <= i < |news| :: handles[i])
      ensures strings == old(strings) || fresh(strings)
    {
      hide Placed, Count, Live;
      handles := [];
      var k := 0;
      while k < |news|
        invariant 0 <= k <= |news| && Valid() && (strings == old(strings) || fresh(strings))
        invariant |handles| == k && forall i :: 0 <= i < k ==> handles[i].val == news[i]
        invariant Strings() == old(Strings()) + (set i | 0 <= i < k :: handles[i])
      {
        ghost var was := handles;
        var s := Add(news[k]);
        handles := handles + [s];
        k := k + 1;
        Extended(was, s);
      }
      forall i, j | 0 <= i < |news| && 0 <= j < |news| && news[i] == news[j] ensures handles[i] == handles[j] {
        Canonical(strings[..], handles[i], handles[j]);
      }
    }

    lemma Extended(was: seq<LVString>, s: LVString)
      ensures (set i | 0 <= i < |was| + 1 :: (was + [s])[i]) == (set i | 0 <= i < |was| :: was[i]) + {s}
    {
      var all := was + [s];
      assert all[|was|] == s;
      forall i | 0 <= i < |was| ensures was[i] in (set i | 0 <= i < |was| + 1 :: all[i]) {
        assert all[i] == was[i];
      }
    }

    lemma Somewhere(t: Buckets, hash: string -> int, bs: LVString)
      requires |t| > 0 && Placed(t, hash) && bs in Live(t)
      ensures exists k :: 0 <= k < |t[Slot(bs.hash, |t|)]| && t[Slot(bs.hash, |t|)][k] == bs
    {
      hide Live;
      var b, i := Where(t, bs);
    }
  }

  // --- whole runs

  /** Text turned into a string, and a string no longer referred to. */
  datatype Request = Intern(text: string) | Release(text: string)

  function Perform(m: set<string>, r: Request): set<string> {
    match r
    case Intern(text) => m + {text}
    case Release(text) => m - {text}
  }

  function PerformAll(m: set<string>, rs: seq<Request>): set<string> {
    if rs == [] then m else Perform(PerformAll(m, rs[..|rs| - 1]), rs[|rs| - 1])
  }

  /** The live strings are the handles given out, one for each text. */
  ghost predicate Handles(t: LVStringTable, handles: map<string, LVString>)
    reads t, t.strings
  {
    t.Strings() == handles.Values && forall x :: x in handles ==> handles[x].val == x
  }

  /** One request; every handle still live stays the handle of its text. */
  method Handle(t: LVStringTable, r: Request, handles: map<string, LVString>) returns (handles': map<string, LVString>)
    requires t.Valid() && Handles(t, handles)
    modifies t, t.strings
    ensures t.Valid() && Handles(t, handles') && handles'.Keys == Perform(handles.Keys, r)
    ensures forall x :: x in handles && x in handles' ==> handles'[x] == handles[x]
    ensures t.strings == old(t.strings) || fresh(t.strings)
  {
    hide Placed, Unique, Count, Live;
    match r {
      case Intern(text) =>
        ghost var b := t.strings[..];
        var s := t.Add(text);
        handles' := handles[text := s];
        if text in handles {
          Canonical(t.strings[..], s, handles[text]);
        }
        Values(handles, text, s);
      case Release(text) =>
        handles' := handles - {text};
        if text in handles {
          Rest(handles, text);
          t.Remove(handles[text]);
        } else {
          assert handles' == handles;
        }
    }
  }

  lemma Values(m: map<string, LVString>, x: string, s: LVString)
    requires x in m ==> m[x] == s
    ensures m[x := s].Values == m.Values + {s}
  {
    var n := m[x := s];
    assert n[x] == s;
    forall v | v in m.Values ensures v in n.Values {
      var k :| k in m && m[k] == v;
      assert n[k] == v;
    }
  }

  lemma Rest(m: map<string, LVString>, x: string)
    requires x in m && forall k :: k in m ==> m[k].val == k
    ensures (m - {x}).Values == m.Values - {m[x]}
  {
    var n := m - {x};
    forall v | v in m.Values && v != m[x] ensures v in n.Values {
      var k :| k in m && m[k] == v;
      assert k in n && n[k] == v;
    }
  }

  /** After any run of requests there is exactly one live string for every text that is in use, and none
      besides. */
  method Run(hashstr: string -> int, rs: seq<Request>) returns (t: LVStringTable, handles: map<string, LVString>)
    ensures fresh(t) && t.Valid() && Handles(t, handles) && handles.Keys == PerformAll({}, rs)
  {
    hide Placed, Unique, Count, Live, Perform;
    t := new LVStringTable(hashstr);
    handles := map[];
    var i := 0;
    while i < |rs|
      invariant 0 <= i <= |rs| && fresh(t) && fresh(t.strings) && t.Valid() && Handles(t, handles)
      invariant handles.Keys == PerformAll({}, rs[..i])
    {
      assert rs[..i + 1][..i] == rs[..i];
      handles := Handle(t, rs[i], handles);
      i := i + 1;
    }
    assert rs[..i] == rs;
  }
}
