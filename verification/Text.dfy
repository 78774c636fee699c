/** The string operations the mirror relies on, over ASCII text. */
module Text {

  datatype Option<+T> = None | Some(value: T)

  function LowerChar(c: char): char {
    if 'A' <= c <= 'Z' then c - 'A' + 'a' else c
  }

  function Lower(s: string): string {
    seq(|s|, i requires 0 <= i < |s| => LowerChar(s[i]))
  }

  const UPPER := "ABCDEFGHIJKLMNOPQRSTUVWXYZ"
  const LOWER := "abcdefghijklmnopqrstuvwxyz"

  /** Letters are folded one by one, everything else is kept. */
  lemma LowerMeaning(s: string)
    ensures |Lower(s)| == |s|
    ensures forall i, k :: 0 <= i < |s| && 0 <= k < 26 && s[i] == UPPER[k] ==> Lower(s)[i] == LOWER[k]
    ensures forall i :: 0 <= i < |s| && s[i] !in UPPER ==> Lower(s)[i] == s[i]
  {
    forall c | 'A' <= c <= 'Z' ensures c in UPPER { assert UPPER[c as int - 65] == c; }
  }

  predicate EqualFold(a: string, b: string) { Lower(a) == Lower(b) }

  predicate IsSpace(c: char) {
    c == ' ' || c == '\t' || c == '\n' || c == '\r' || c == 11 as char || c == 12 as char
  }

  /** Tab to carriage return, and the space. */
  lemma SpaceCodes(c: char)
    ensures IsSpace(c) <==> 9 <= c as int <= 13 || c as int == 32
  {
  }

  /** How many leading characters are cut. */
  function Lead(s: string, cut: char -> bool): (k: nat)
    ensures k <= |s|
    ensures k < |s| ==> !cut(s[k])
    ensures forall i :: 0 <= i < k ==> cut(s[i])
  {
    if s == "" || !cut(s[0]) then 0 else 1 + Lead(s[1..], cut)
  }

  /** How many characters remain when trailing ones are cut. */
  function Keep(s: string, cut: char -> bool): (k: nat)
    ensures k <= |s|
    ensures 0 < k ==> !cut(s[k - 1])
    ensures forall i :: k <= i < |s| ==> cut(s[i])
  {
    if s == "" || !cut(s[|s| - 1]) then |s| else Keep(s[..|s| - 1], cut)
  }

  function TrimLeft(s: string, cut: char -> bool): string { s[Lead(s, cut)..] }

  function TrimRight(s: string, cut: char -> bool): string { s[..Keep(s, cut)] }

  function Trim(s: string, cut: char -> bool): string {
    TrimRight(TrimLeft(s, cut), cut)
  }

  function TrimSpace(s: string): string { Trim(s, IsSpace) }

  /** Neither end of `s` would be cut away. */
  predicate Tight(s: string, cut: char -> bool) {
    s != "" ==> !cut(s[0]) && !cut(s[|s| - 1])
  }

  /** Trimming keeps a slice and cuts everything outside it. */
  lemma TrimSlice(s: string, cut: char -> bool) returns (a: nat, b: nat)
    ensures a <= b <= |s| && Trim(s, cut) == s[a..b]
    ensures Tight(Trim(s, cut), cut)
    ensures forall i :: 0 <= i < |s| && !(a <= i < b) ==> cut(s[i])
  {
    a := Lead(s, cut);
    b := a + Keep(s[a..], cut);
    forall i | 0 <= i < |s| && !(a <= i < b) ensures cut(s[i]) {
      if b <= i { assert s[i] == s[a..][i - a]; }
    }
  }

  lemma TrimTight(s: string, cut: char -> bool)
    requires Tight(s, cut)
    ensures Trim(s, cut) == s
  {
    assert Lead(s, cut) == 0;
    assert s[0..] == s;
    assert Keep(s, cut) == |s|;
  }

  lemma TrimAll(s: string, cut: char -> bool)
    requires forall c :: c in s ==> cut(c)
    ensures Trim(s, cut) == ""
  {
    var a, b := TrimSlice(s, cut);
    assert forall c :: c in s[a..b] ==> c in s;
  }

  lemma TrimFrom(s: string, i: nat, j: nat, cut: char -> bool)
    requires i < j <= |s| && !cut(s[i]) && !cut(s[j - 1])
    requires forall k :: 0 <= k < |s| && !(i <= k < j) ==> cut(s[k])
    ensures Trim(s, cut) == s[i..j]
  {
    var a, b := TrimSlice(s, cut);
    var t := Trim(s, cut);
    assert t[0] == s[a] && t[b - a - 1] == s[b - 1];
  }

  /** Trimming is cutting at both ends: what is left is the middle. */
  lemma TrimMiddle(pre: string, mid: string, post: string, cut: char -> bool)
    requires forall c :: c in pre || c in post ==> cut(c)
    requires Tight(mid, cut)
    ensures Trim(pre + mid + post, cut) == mid
  {
    var s, i, j := pre + mid + post, |pre|, |pre| + |mid|;
    if mid == "" {
      TrimAll(s, cut);
    } else {
      assert s[i] == mid[0] && s[j - 1] == mid[|mid| - 1] && s[i..j] == mid;
      assert forall k :: 0 <= k < i ==> s[k] == pre[k];
      assert forall k :: j <= k < |s| ==> s[k] == post[k - j];
      TrimFrom(s, i, j, cut);
    }
  }

  lemma CutEnds(m: string, a: nat, b: nat, cut: char -> bool)
    requires a <= b <= |m| && forall i :: 0 <= i < |m| && !(a <= i < b) ==> cut(m[i])
    ensures forall c :: c in m[..a] || c in m[b..] ==> cut(c)
  {
  }

  /** Cutting some of the characters that trimming would cut changes nothing. */
  lemma TrimTail(s: string, i: nat, cut: char -> bool)
    requires i <= |s| && forall c :: c in s[..i] ==> cut(c)
    ensures Trim(s[i..], cut) == Trim(s, cut)
  {
    var m := s[i..];
    var a, b := TrimSlice(m, cut);
    CutEnds(m, a, b, cut);
    assert s == (s[..i] + m[..a]) + m[a..b] + m[b..];
    TrimMiddle(s[..i] + m[..a], m[a..b], m[b..], cut);
  }

  lemma TrimHead(s: string, j: nat, cut: char -> bool)
    requires j <= |s| && forall c :: c in s[j..] ==> cut(c)
    ensures Trim(s[..j], cut) == Trim(s, cut)
  {
    var m := s[..j];
    var a, b := TrimSlice(m, cut);
    CutEnds(m, a, b, cut);
    assert s == m[..a] + m[a..b] + (m[b..] + s[j..]);
    TrimMiddle(m[..a], m[a..b], m[b..] + s[j..], cut);
  }

  predicate HasPrefix(s: string, p: string) { p <= s }

  function TrimPrefix(s: string, p: string): string {
    if p <= s then s[|p|..] else s
  }

  predicate HasSuffix(s: string, p: string) {
    |p| <= |s| && s[|s| - |p|..] == p
  }

  function TrimSuffix(s: string, p: string): string {
    if HasSuffix(s, p) then s[..|s| - |p|] else s
  }

  /** The first position of `c`, or the length of `s`. */
  function IndexOf(s: string, c: char): (k: nat)
    ensures k <= |s|
    ensures k < |s| ==> s[k] == c
    ensures forall i :: 0 <= i < k ==> s[i] != c
    ensures k < |s| <==> c in s
  {
    if s == "" then 0 else if s[0] == c then 0 else 1 + IndexOf(s[1..], c)
  }

  function Split(s: string, c: char): (r: seq<string>)
    decreases |s|
  {
    var k := IndexOf(s, c);
    if k == |s| then [s] else [s[..k]] + Split(s[k + 1..], c)
  }

  function Join(parts: seq<string>, sep: string): string {
    if parts == [] then ""
    else if |parts| == 1 then parts[0]
    else parts[0] + sep + Join(parts[1..], sep)
  }

  predicate Contains(s: string, p: string) {
    p <= s || (s != "" && Contains(s[1..], p))
  }

  function AfterScheme(s: string): string {
    if "://" <= s then s[3..] else if s == "" then "" else AfterScheme(s[1..])
  }

  /** An image ID without its scheme and surrounding blanks. */
  function NormalizeImageID(id: string): string {
    var s := TrimSpace(id);
    TrimSpace(if Contains(s, "://") then AfterScheme(s) else s)
  }

  lemma {:induction false} ContainsMeaning(s: string, p: string)
    ensures Contains(s, p) <==> exists k :: 0 <= k <= |s| && p <= s[k..]
  {
    if p <= s {
      assert s[0..] == s;
    } else if s != "" {
      ContainsMeaning(s[1..], p);
      if k :| 0 <= k <= |s| && p <= s[k..] {
        assert k > 0 by { assert s[0..] == s; }
        assert s[1..][k - 1..] == s[k..];
      }
      if k :| 0 <= k <= |s| - 1 && p <= s[1..][k..] { assert s[k + 1..] == s[1..][k..]; }
    }
  }

  lemma {:induction false} AfterFirstScheme(a: string, rest: string)
    requires ':' !in a
    ensures Contains(a + "://" + rest, "://") && AfterScheme(a + "://" + rest) == rest
  {
    var s := a + "://" + rest;
    if a == "" {
      assert s[3..] == rest;
    } else {
      assert s[0] == a[0] && s[1..] == a[1..] + "://" + rest;
      AfterFirstScheme(a[1..], rest);
    }
  }

  /** The runtime's scheme in front of an image ID is dropped, and so are blanks. */
  lemma ImageIDMeaning(a: string, id: string)
    requires ':' !in a && Tight(a, IsSpace) && Tight(id, IsSpace)
    ensures id != "" ==> NormalizeImageID(a + "://" + id) == id
    ensures !Contains(id, "://") ==> NormalizeImageID(id) == id
  {
    var s := a + "://" + id;
    if id != "" {
      assert s[0] == (a + "://")[0] && s[|s| - 1] == id[|id| - 1];
      TrimTight(s, IsSpace);
      AfterFirstScheme(a, id);
    }
    TrimTight(id, IsSpace);
  }

  // ---- Splitting and joining ----

  lemma JoinFront(x: string, rest: seq<string>, sep: string)
    requires rest != []
    ensures Join([x] + rest, sep) == x + sep + Join(rest, sep)
  {
    assert ([x] + rest)[1..] == rest;
  }

  lemma {:induction false} PiecesPlain(s: string, c: char)
    ensures Split(s, c) != [] && forall i :: 0 <= i < |Split(s, c)| ==> c !in Split(s, c)[i]
    decreases |s|
  {
    var k := IndexOf(s, c);
    var front := s[..k];
    assert c !in front;
    if k < |s| {
      var pieces := Split(s[k + 1..], c);
      PiecesPlain(s[k + 1..], c);
      assert Split(s, c) == [front] + pieces;
    } else {
      assert front == s;
    }
  }

  lemma {:induction false} PiecesJoin(s: string, c: char)
    ensures Join(Split(s, c), [c]) == s
    decreases |s|
  {
    var k := IndexOf(s, c);
    if k < |s| {
      var front, tail := s[..k], s[k + 1..];
      var pieces := Split(tail, c);
      PiecesPlain(tail, c);
      PiecesJoin(tail, c);
      JoinFront(front, pieces, [c]);
      assert s == front + [c] + tail;
    }
  }

  /** The pieces hold no separator, and joined they give back the string. */
  lemma SplitMeaning(s: string, c: char)
    ensures Split(s, c) != [] && Join(Split(s, c), [c]) == s
    ensures forall i :: 0 <= i < |Split(s, c)| ==> c !in Split(s, c)[i]
  {
    PiecesPlain(s, c);
    PiecesJoin(s, c);
  }

  lemma SeparatorFirst(p: string, c: char, n: string)
    requires c !in p
    ensures IndexOf(p + [c] + n, c) == |p|
  {
    var s := p + [c] + n;
    assert s[|p|] == c;
    assert forall i :: 0 <= i < |p| ==> s[i] == p[i] && s[i] in p;
  }

  /** Pieces without a separator are what their join is split into. */
  lemma {:induction false} SplitJoin(parts: seq<string>, c: char)
    requires parts != [] && forall i :: 0 <= i < |parts| ==> c !in parts[i]
    ensures Split(Join(parts, [c]), c) == parts
  {
    if |parts| > 1 {
      var rest := Join(parts[1..], [c]);
      var s := parts[0] + [c] + rest;
      SplitJoin(parts[1..], c);
      SeparatorFirst(parts[0], c, rest);
      assert s[..|parts[0]|] == parts[0] && s[|parts[0]| + 1..] == rest;
    }
  }

  lemma SlashFirst(p: string, n: string)
    requires '/' !in p
    ensures IndexOf(p + "/" + n, '/') == |p|
  {
    var s := p + "/" + n;
    assert s[|p|] == '/';
    assert forall i :: 0 <= i < |p| ==> s[i] == p[i] && s[i] in p;
  }

  lemma LowerConcat(a: string, b: string)
    ensures Lower(a + b) == Lower(a) + Lower(b)
  {
  }

  // ---- Byte order, as sort.Strings uses it ----

  predicate Less(a: string, b: string) {
    if b == "" then false
    else if a == "" then true
    else if a[0] != b[0] then a[0] < b[0]
    else Less(a[1..], b[1..])
  }

  lemma {:induction false} LessIrreflexive(a: string)
    ensures !Less(a, a)
  {
    if a != "" { LessIrreflexive(a[1..]); }
  }

  lemma {:induction false} LessTransitive(a: string, b: string, c: string)
    requires Less(a, b) && Less(b, c)
    ensures Less(a, c)
  {
    if a != "" && a[0] == b[0] == c[0] { LessTransitive(a[1..], b[1..], c[1..]); }
  }

  lemma {:induction false} LessTotal(a: string, b: string)
    ensures a == b || Less(a, b) || Less(b, a)
  {
    if a != "" && b != "" && a[0] == b[0] {
      LessTotal(a[1..], b[1..]);
      assert a == [a[0]] + a[1..];
      assert b == [b[0]] + b[1..];
    }
  }

  /** Strings that agree up to `k` are ordered by what stands there, or by their lengths if one of
      them ends. */
  lemma {:induction false} LessMeaning(a: string, b: string, k: nat)
    requires k <= |a| && k <= |b| && forall i :: 0 <= i < k ==> a[i] == b[i]
    requires k < |a| && k < |b| ==> a[k] != b[k]
    ensures Less(a, b) <==> if k < |a| && k < |b| then a[k] < b[k] else |a| < |b|
  {
    if k > 0 {
      assert forall i :: 0 <= i < k - 1 ==> a[1..][i] == a[i + 1] && b[1..][i] == b[i + 1];
      LessMeaning(a[1..], b[1..], k - 1);
    }
  }

  /** A proper prefix sorts before every string it starts. */
  lemma {:induction false} PrefixLess(a: string, b: string)
    requires a < b
    ensures Less(a, b)
  {
    if a != "" {
      assert a[0] == b[0];
      PrefixLess(a[1..], b[1..]);
    }
  }

  predicate StrictlySorted(s: seq<string>) {
    forall i, j :: 0 <= i < j < |s| ==> Less(s[i], s[j])
  }

  /** Insertion into a strictly sorted sequence. */
  function Insert(x: string, s: seq<string>): seq<string> {
    if s == [] then [x]
    else if x == s[0] then s
    else if Less(x, s[0]) then [x] + s
    else [s[0]] + Insert(x, s[1..])
  }

  function Sort(s: seq<string>): seq<string> {
    if s == [] then [] else Insert(s[0], Sort(s[1..]))
  }

  lemma {:induction false} InsertSorted(x: string, s: seq<string>)
    requires StrictlySorted(s)
    ensures StrictlySorted(Insert(x, s))
    ensures forall y :: y in Insert(x, s) <==> y == x || y in s
  {
    if s != [] && x != s[0] {
      LessTotal(x, s[0]);
      if Less(x, s[0]) {
        forall i | 0 < i < |s| ensures Less(x, s[i]) { LessTransitive(x, s[0], s[i]); }
      } else {
        InsertSorted(x, s[1..]);
        assert s == [s[0]] + s[1..];
        var r := Insert(x, s[1..]);
        forall i | 0 <= i < |r| ensures Less(s[0], r[i]) { assert r[i] in r; }
      }
    }
  }

  lemma {:induction false} SortSorted(s: seq<string>)
    ensures StrictlySorted(Sort(s))
    ensures forall y :: y in Sort(s) <==> y in s
  {
    if s != [] {
      SortSorted(s[1..]);
      InsertSorted(s[0], Sort(s[1..]));
    }
  }

  /** A strictly sorted sequence is determined by its elements. */
  lemma {:induction false} SortedUnique(a: seq<string>, b: seq<string>)
    requires StrictlySorted(a) && StrictlySorted(b)
    requires forall y :: y in a <==> y in b
    ensures a == b
  {
    if a == [] {
      assert forall i :: 0 <= i < |b| ==> b[i] !in a;
    } else {
      assert a[0] in b;
      assert a[0] == b[0] by {
        assert a[0] in b && b[0] in a;
        if a[0] != b[0] {
          LessTransitive(a[0], b[0], a[0]);
          LessIrreflexive(a[0]);
        }
      }
      forall y | y in a[1..] ensures y in b[1..] { LessIrreflexive(y); assert y in a; }
      forall y | y in b[1..] ensures y in a[1..] { LessIrreflexive(y); assert y in b; }
      SortedUnique(a[1..], b[1..]);
    }
  }

  /** Reading a set back in whatever order it yields its elements. */
  method Elements(unique: set<string>) returns (out: seq<string>)
    ensures forall y :: y in out <==> y in unique
  {
    out := [];
    var rest := unique;
    while rest != {}
      invariant rest <= unique
      invariant forall y :: y in unique ==> y in rest || y in out
      invariant forall y :: y in out ==> y in unique
    {
      var val :| val in rest;
      out := out + [val];
      rest := rest - {val};
    }
  }
}
