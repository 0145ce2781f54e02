/** Byte strings and the parts of Go's `strings` package the proxy relies on.
    Strings are sequences of bytes; a byte is a `char` below 256, so literals stay readable. */
module Strings {
  import opened Seqs

  type Byte = c: char | c as int < 256
  type Str = seq<Byte>

  // ---- Split, Join, Cut ----

  /** `strings.Split` for a one-byte separator: always at least one part. */
  function Split(s: Str, sep: Byte): (r: seq<Str>)
    ensures |r| > 0
    ensures forall p :: p in r ==> sep !in p
    ensures forall p, c :: p in r && c in p ==> c in s
  {
    if s == [] then [[]]
    else if s[0] == sep then [[]] + Split(s[1..], sep)
    else
      var r := Split(s[1..], sep);
      assert r == [r[0]] + r[1..];
      [[s[0]] + r[0]] + r[1..]
  }

  /** `strings.Join` for a one-byte separator. */
  function Join(parts: seq<Str>, sep: Byte): Str {
    if parts == [] then []
    else if |parts| == 1 then parts[0]
    else parts[0] + [sep] + Join(parts[1..], sep)
  }

  /** `strings.Cut` for a one-byte separator. */
  datatype Pieces = Pieces(before: Str, after: Str, found: bool)

  function Cut(s: Str, sep: Byte): (r: Pieces)
    ensures r.found ==> s == r.before + [sep] + r.after
    ensures !r.found ==> r.before == s && r.after == []
    ensures sep !in r.before
  {
    if s == [] then Pieces([], [], false)
    else if s[0] == sep then Pieces([], s[1..], true)
    else
      var r := Cut(s[1..], sep);
      assert s == [s[0]] + s[1..];
      Pieces([s[0]] + r.before, r.after, r.found)
  }

  lemma {:induction false} CutAt(a: Str, sep: Byte, b: Str)
    requires sep !in a
    ensures Cut(a + [sep] + b, sep) == Pieces(a, b, true)
  {
    if a != [] {
      assert (a + [sep] + b)[1..] == a[1..] + [sep] + b;
      CutAt(a[1..], sep, b);
    }
  }

  lemma {:induction false} SplitWhole(a: Str, sep: Byte)
    requires sep !in a
    ensures Split(a, sep) == [a]
  {
    if a != [] {
      SplitWhole(a[1..], sep);
      assert a == [a[0]] + a[1..];
    }
  }

  lemma {:induction false} SplitAt(a: Str, sep: Byte, b: Str)
    requires sep !in a
    ensures Split(a + [sep] + b, sep) == [a] + Split(b, sep)
  {
    if a == [] {
      assert (a + [sep] + b)[1..] == b;
    } else {
      assert (a + [sep] + b)[1..] == a[1..] + [sep] + b;
      SplitAt(a[1..], sep, b);
      assert a == [a[0]] + a[1..];
    }
  }

  lemma {:induction false} SplitJoin(parts: seq<Str>, sep: Byte)
    requires parts != [] && forall p :: p in parts ==> sep !in p
    ensures Split(Join(parts, sep), sep) == parts
  {
    if |parts| == 1 {
      SplitWhole(parts[0], sep);
    } else {
      SplitJoin(parts[1..], sep);
      SplitAt(parts[0], sep, Join(parts[1..], sep));
    }
  }

  lemma {:induction false} JoinSplit(s: Str, sep: Byte)
    ensures Join(Split(s, sep), sep) == s
  {
    if s != [] {
      JoinSplit(s[1..], sep);
      var r := Split(s[1..], sep);
      if s[0] == sep {
        assert ([[]] + r)[1..] == r;
      } else {
        assert ([[s[0]] + r[0]] + r[1..])[1..] == r[1..];
      }
    }
  }

  lemma {:induction false} JoinFree(parts: seq<Str>, sep: Byte, c: Byte)
    requires c != sep && forall p :: p in parts ==> c !in p
    ensures c !in Join(parts, sep)
  {
    if |parts| > 1 {
      JoinFree(parts[1..], sep, c);
    }
  }

  lemma JoinOne(part: Str, sep: Byte)
    ensures Join([], sep) == [] && Join([part], sep) == part
  {
  }

  lemma {:induction false} JoinAppend(xs: seq<Str>, ys: seq<Str>, sep: Byte)
    requires xs != [] && ys != []
    ensures Join(xs + ys, sep) == Join(xs, sep) + [sep] + Join(ys, sep)
  {
    if |xs| == 1 {
      assert (xs + ys)[1..] == ys;
    } else {
      assert (xs + ys)[1..] == xs[1..] + ys;
      JoinAppend(xs[1..], ys, sep);
    }
  }

  // ---- Order ----

  /** Go's `<=` on strings: byte-wise lexicographic. */
  predicate Leq(a: Str, b: Str) {
    a == [] || (b != [] && (a[0] < b[0] || (a[0] == b[0] && Leq(a[1..], b[1..]))))
  }

  lemma {:induction false} LeqTotal(a: Str, b: Str)
    ensures Leq(a, b) || Leq(b, a)
    ensures Leq(a, b) && Leq(b, a) ==> a == b
  {
    if a != [] && b != [] {
      LeqTotal(a[1..], b[1..]);
      assert a == [a[0]] + a[1..] && b == [b[0]] + b[1..];
    }
  }

  lemma {:induction false} LeqTransitive(a: Str, b: Str, c: Str)
    requires Leq(a, b) && Leq(b, c)
    ensures Leq(a, c)
  {
    if a != [] && a[0] == b[0] == c[0] {
      LeqTransitive(a[1..], b[1..], c[1..]);
    }
  }

  lemma LeqIsTotalOrder()
    ensures TotalOrder(Leq)
  {
    forall a: Str, b: Str ensures (Leq(a, b) || Leq(b, a)) && (Leq(a, b) && Leq(b, a) ==> a == b) {
      LeqTotal(a, b);
    }
    forall a: Str, b: Str, c: Str | Leq(a, b) && Leq(b, c) ensures Leq(a, c) {
      LeqTransitive(a, b, c);
    }
  }

  /** Below or equal, byte by byte: a prefix, or smaller at the first difference. */
  ghost predicate AtMost(a: Str, b: Str) {
    exists n :: 0 <= n <= |a| && n <= |b| && a[..n] == b[..n] && (n == |a| || (n < |b| && a[n] < b[n]))
  }

  lemma {:induction false} LeqMeans(a: Str, b: Str)
    ensures Leq(a, b) <==> AtMost(a, b)
    decreases |a|
  {
    if a == [] {
      assert a[..0] == b[..0];
    } else if b != [] && a[0] == b[0] {
      LeqMeans(a[1..], b[1..]);
      if AtMost(a[1..], b[1..]) {
        var n :| 0 <= n <= |a| - 1 && n <= |b| - 1 && a[1..][..n] == b[1..][..n]
                 && (n == |a| - 1 || (n < |b| - 1 && a[1..][n] < b[1..][n]));
        assert a[..n + 1] == [a[0]] + a[1..][..n] && b[..n + 1] == [b[0]] + b[1..][..n];
      }
      if AtMost(a, b) {
        var n :| 0 <= n <= |a| && n <= |b| && a[..n] == b[..n] && (n == |a| || (n < |b| && a[n] < b[n]));
        assert n > 0;
        assert a[1..][..n - 1] == a[..n][1..] && b[1..][..n - 1] == b[..n][1..];
      }
    } else if b != [] && a[0] < b[0] {
      assert a[..0] == b[..0];
    }
  }

  // ---- Case ----

  const UPPER_CASE: Str := "ABCDEFGHIJKLMNOPQRSTUVWXYZ"
  const LOWER_CASE: Str := "abcdefghijklmnopqrstuvwxyz"

  function Lower(c: Byte): Byte {
    if 'A' <= c <= 'Z' then (c as int + 32) as char else c
  }

  function Upper(c: Byte): Byte {
    if 'a' <= c <= 'z' then (c as int - 32) as char else c
  }

  /** Case is exchanged letter by letter, and nothing else changes. */
  lemma CaseTable(c: Byte, i: nat)
    requires i < 26
    ensures c == UPPER_CASE[i] ==> Lower(c) == LOWER_CASE[i]
    ensures c == LOWER_CASE[i] ==> Upper(c) == UPPER_CASE[i]
    ensures !('A' <= c <= 'Z') ==> Lower(c) == c
    ensures !('a' <= c <= 'z') ==> Upper(c) == c
  {
  }

  /** `strings.ToLower` on ASCII. */
  function ToLower(s: Str): Str {
    Map(Lower, s)
  }

  predicate HasPrefix(s: Str, prefix: Str) {
    prefix <= s
  }

  // ---- White space ----
  // White space is the set of `unicode.IsSpace`, recognised in its UTF-8 encoding. Every
  // multi-byte space starts with a byte that cannot continue another rune, so looking for the
  // encoding at each byte position finds the same spaces as decoding rune by rune.

  predicate IsAsciiSpace(c: Byte) {
    9 <= c as int <= 13 || c == ' '
  }

  predicate IsWideSpace(a: int, b: int, c: int) {
    || (a == 0xE1 && b == 0x9A && c == 0x80)
    || (a == 0xE2 && b == 0x80 && (0x80 <= c <= 0x8A || c == 0xA8 || c == 0xA9 || c == 0xAF))
    || (a == 0xE2 && b == 0x81 && c == 0x9F)
    || (a == 0xE3 && b == 0x80 && c == 0x80)
  }

  /** Length in bytes of the space that `s` starts with, 0 if it starts with none. */
  function LeadingSpace(s: Str): (n: nat)
    ensures n <= |s|
  {
    if |s| >= 1 && IsAsciiSpace(s[0]) then 1
    else if |s| >= 2 && s[0] as int == 0xC2 && (s[1] as int == 0x85 || s[1] as int == 0xA0) then 2
    else if |s| >= 3 && IsWideSpace(s[0] as int, s[1] as int, s[2] as int) then 3
    else 0
  }

  /** Length in bytes of the space that `s` ends with, 0 if it ends with none. */
  function TrailingSpace(s: Str): (n: nat)
    ensures n <= |s|
  {
    var k := |s|;
    if k >= 1 && IsAsciiSpace(s[k-1]) then 1
    else if k >= 2 && s[k-2] as int == 0xC2 && (s[k-1] as int == 0x85 || s[k-1] as int == 0xA0) then 2
    else if k >= 3 && IsWideSpace(s[k-3] as int, s[k-2] as int, s[k-1] as int) then 3
    else 0
  }

  function TrimLeft(s: Str): (r: Str)
    ensures LeadingSpace(r) == 0
    ensures forall c :: c in r ==> c in s
    decreases |s|
  {
    if LeadingSpace(s) == 0 then s else TrimLeft(s[LeadingSpace(s)..])
  }

  function TrimRight(s: Str): (r: Str)
    ensures TrailingSpace(r) == 0
    ensures r <= s
    decreases |s|
  {
    if TrailingSpace(s) == 0 then s else TrimRight(s[..|s| - TrailingSpace(s)])
  }

  /** `strings.TrimSpace`. */
  function TrimSpace(s: Str): (r: Str)
    ensures IsTrimmed(r)
    ensures forall c :: c in r ==> c in s
    ensures IsTrimmed(s) ==> r == s
  {
    TrimRight(TrimLeft(s))
  }

  predicate IsTrimmed(s: Str) {
    LeadingSpace(s) == 0 && TrailingSpace(s) == 0
  }

  /** One leading ASCII space in front of trimmed text is all `TrimSpace` removes. */
  lemma TrimOneSpace(s: Str)
    requires IsTrimmed(s)
    ensures TrimSpace(" " + s) == s
  {
    var padded: Str := " " + s;
    assert LeadingSpace(padded) == 1 && padded[1..] == s;
    assert TrimLeft(padded) == TrimLeft(s) == s;
  }

  /** The code points of `unicode.IsSpace`. */
  const SPACES: set<int> := {
    0x09, 0x0A, 0x0B, 0x0C, 0x0D, 0x20, 0x85, 0xA0, 0x1680, 0x2000, 0x2001, 0x2002, 0x2003, 0x2004, 0x2005, 0x2006,
    0x2007, 0x2008, 0x2009, 0x200A, 0x2028, 0x2029, 0x202F, 0x205F, 0x3000 }

  /** UTF-8, for the basic plane. */
  function Utf8(p: int): Str
    requires 0 <= p < 0x10000
  {
    if p < 0x80 then [p as char]
    else if p < 0x800 then [(0xC0 + p / 64) as char, (0x80 + p % 64) as char]
    else [(0xE0 + p / 4096) as char, (0x80 + p / 64 % 64) as char, (0x80 + p % 64) as char]
  }

  lemma Utf8Inverse(n: int, a: int, b: int, c: int)
    requires 0x80 <= b < 0xC0 && 0x80 <= c < 0xC0
    ensures n == 2 && 0xC2 <= a < 0xE0 ==> Utf8((a - 0xC0) * 64 + (b - 0x80)) == [a as char, b as char]
    ensures n == 3 && 0xE1 <= a < 0xF0 ==>
              Utf8((a - 0xE0) * 4096 + (b - 0x80) * 64 + (c - 0x80)) == [a as char, b as char, c as char]
  {
    if n == 3 && 0xE1 <= a < 0xF0 {
      var p := (a - 0xE0) * 4096 + (b - 0x80) * 64 + (c - 0x80);
      assert p / 4096 == a - 0xE0 && p / 64 == (a - 0xE0) * 64 + (b - 0x80);
    }
  }

  /** What starts with white space starts with the UTF-8 of one of those code points. */
  lemma LeadingSpaceMeans(s: Str)
    ensures LeadingSpace(s) > 0 <==> exists p :: p in SPACES && Utf8(p) <= s
    ensures LeadingSpace(s) > 0 ==> exists p :: p in SPACES && Utf8(p) == s[..LeadingSpace(s)]
  {
    var n := LeadingSpace(s);
    if n == 1 {
      assert s[0] as int in SPACES && Utf8(s[0] as int) == s[..1];
    } else if n == 2 {
      Utf8Inverse(2, s[0] as int, s[1] as int, 0x80);
      var p := (s[0] as int - 0xC0) * 64 + (s[1] as int - 0x80);
      assert p in SPACES && Utf8(p) == s[..2];
    } else if n == 3 {
      Utf8Inverse(3, s[0] as int, s[1] as int, s[2] as int);
      var p := (s[0] as int - 0xE0) * 4096 + (s[1] as int - 0x80) * 64 + (s[2] as int - 0x80);
      assert p in SPACES && Utf8(p) == s[..3];
    }
    if p :| p in SPACES && Utf8(p) <= s {
      SpaceLeads(p, s);
    }
  }

  lemma SpaceLeads(p: int, s: Str)
    requires p in SPACES && Utf8(p) <= s
    ensures LeadingSpace(s) > 0
  {
    var u := Utf8(p);
    assert forall i :: 0 <= i < |u| ==> s[i] == u[i];
  }

  /** The same at the end. */
  lemma TrailingSpaceMeans(s: Str)
    requires TrailingSpace(s) > 0
    ensures exists p :: p in SPACES && Utf8(p) == s[|s| - TrailingSpace(s)..]
  {
    hide TrailingSpace, LeadingSpace;
    var t := s[|s| - TrailingSpace(s)..];
    TrailingSuffix(s);
    LeadingSpaceMeans(t);
    assert t[..|t|] == t;
  }

  lemma TrailingSuffix(s: Str)
    ensures var t := s[|s| - TrailingSpace(s)..]; LeadingSpace(t) == TrailingSpace(t) == |t| || t == []
  {
  }

  lemma SpaceTrails(p: int, s: Str)
    requires p in SPACES
    ensures TrailingSpace(s + Utf8(p)) > 0
  {
    var u := Utf8(p);
    var t := s + u;
    assert forall i :: 0 <= i < |u| ==> t[|s| + i] == u[i];
  }

  function Min(a: int, b: int): int { if a <= b then a else b }

  /** Nothing but white space, read from the left and from the right. */
  predicate Blank(s: Str)
    decreases |s|
  {
    s == [] || (LeadingSpace(s) > 0 && Blank(s[LeadingSpace(s)..]))
  }

  predicate BlankBack(s: Str)
    decreases |s|
  {
    s == [] || (TrailingSpace(s) > 0 && BlankBack(s[..|s| - TrailingSpace(s)]))
  }

  lemma TrimSteps(s: Str)
    ensures var n := LeadingSpace(s);
            && TrimLeft(s) == (if n == 0 then s else TrimLeft(s[n..]))
            && (n > 0 ==> LeadingSpace(s[..n]) == n)
    ensures var n := TrailingSpace(s); TrimRight(s) == (if n == 0 then s else TrimRight(s[..|s| - n]))
  {
  }

  lemma Regroup(a: Str, b: Str, c: Str)
    ensures a + (b + c) == a + b + c
  {
  }

  lemma {:induction false} TrimLeftDrops(s: Str) returns (a: Str)
    ensures s == a + TrimLeft(s) && Blank(a)
    decreases |s|
  {
    hide LeadingSpace, TrailingSpace, TrimLeft, TrimRight;
    var n := LeadingSpace(s);
    TrimSteps(s);
    if n == 0 {
      a := [];
    } else {
      var b := TrimLeftDrops(s[n..]);
      a := s[..n] + b;
      BlankCons(s[..n], b);
      Regroup(s[..n], b, TrimLeft(s));
    }
  }

  lemma BlankCons(x: Str, b: Str)
    requires x != [] && LeadingSpace(x) == |x| && Blank(b)
    ensures Blank(x + b)
  {
    var s := x + b;
    assert forall i :: 0 <= i < |x| ==> s[i] == x[i];
    assert s[|x|..] == b;
  }

  lemma {:induction false} TrimRightDrops(s: Str) returns (b: Str)
    ensures s == TrimRight(s) + b && BlankBack(b)
    decreases |s|
  {
    hide LeadingSpace, TrailingSpace, TrimLeft, TrimRight;
    var n := TrailingSpace(s);
    TrimSteps(s);
    if n == 0 {
      b := [];
    } else {
      var a := TrimRightDrops(s[..|s| - n]);
      b := a + s[|s| - n..];
      TrailingSuffix(s);
      BlankSnoc(a, s[|s| - n..]);
      Regroup(TrimRight(s), a, s[|s| - n..]);
    }
  }

  lemma BlankSnoc(a: Str, x: Str)
    requires x != [] && TrailingSpace(x) == |x| && BlankBack(a)
    ensures BlankBack(a + x)
  {
    var s := a + x;
    assert forall i :: 0 <= i < |x| ==> s[|a| + i] == x[i];
    assert s[..|a|] == a;
  }

  /** Trimming takes white space off both ends and nothing else. */
  lemma TrimSpaceDrops(s: Str) returns (a: Str, b: Str)
    ensures s == a + TrimSpace(s) + b && Blank(a) && BlankBack(b)
    ensures LeadingSpace(TrimSpace(s)) == 0 && TrailingSpace(TrimSpace(s)) == 0
  {
    hide LeadingSpace, TrailingSpace, Blank, BlankBack, TrimLeft, TrimRight;
    a := TrimLeftDrops(s);
    b := TrimRightDrops(TrimLeft(s));
    assert IsTrimmed(TrimSpace(s));
  }

  lemma LowerKeepsTrimmed(s: Str)
    ensures IsTrimmed(s) ==> IsTrimmed(ToLower(s))
    ensures ToLower(ToLower(s)) == ToLower(s)
  {
    assert forall i :: 0 <= i < |s| ==> ToLower(s)[i] == s[i] || ('A' <= s[i] <= 'Z' && 'a' <= ToLower(s)[i] <= 'z');
  }

  /** Bytes before the first space. */
  function WordLength(s: Str): (n: nat)
    ensures n <= |s|
    ensures forall i :: 0 <= i < n ==> !IsAsciiSpace(s[i])
    ensures s != [] && LeadingSpace(s) == 0 ==> n > 0
  {
    if s == [] || LeadingSpace(s) > 0 then 0 else 1 + WordLength(s[1..])
  }

  /** `strings.Fields`. */
  function Fields(s: Str): (r: seq<Str>)
    ensures forall w :: w in r ==> w != [] && forall c :: c in w ==> !IsAsciiSpace(c)
    decreases |s|
  {
    var t := TrimLeft(s);
    if t == [] then []
    else
      var n := WordLength(t);
      assert |t| <= |s| by { TrimLeftShorter(s); }
      [t[..n]] + Fields(t[n..])
  }

  lemma {:induction false} TrimLeftShorter(s: Str)
    ensures |TrimLeft(s)| <= |s|
    decreases |s|
  {
    if LeadingSpace(s) > 0 {
      TrimLeftShorter(s[LeadingSpace(s)..]);
    }
  }

  /** No white space starts anywhere in a word. */
  predicate SpaceFree(w: Str) {
    w != [] && forall i :: 0 <= i < |w| ==> LeadingSpace(w[i..]) == 0
  }

  lemma PrefixSpace(x: Str, y: Str)
    requires x != []
    ensures LeadingSpace(x + y) == 0 ==> LeadingSpace(x) == 0
    ensures LeadingSpace(x) == 0 && (y == [] || LeadingSpace(y) > 0) ==> LeadingSpace(x + y) == 0
  {
    assert forall i :: 0 <= i < |x| ==> (x + y)[i] == x[i];
    assert forall i :: 0 <= i < |y| ==> (x + y)[|x| + i] == y[i];
  }

  /** No space starts inside the first word. */
  lemma {:induction false} WordTail(s: Str, i: nat)
    requires i < WordLength(s)
    ensures LeadingSpace(s[i..]) == 0
    decreases |s|
  {
    hide LeadingSpace;
    if i == 0 {
      assert s[0..] == s;
    } else {
      assert s[1..][i - 1..] == s[i..];
      WordTail(s[1..], i - 1);
    }
  }

  /** Cutting the text after the word does not make a space. */
  lemma WordSuffix(s: Str, i: nat)
    requires i < WordLength(s)
    ensures LeadingSpace(s[..WordLength(s)][i..]) == 0
  {
    hide LeadingSpace, WordLength;
    var n := WordLength(s);
    WordTail(s, i);
    assert s[..n][i..] + s[n..] == s[i..];
    PrefixSpace(s[..n][i..], s[n..]);
  }

  lemma WordIsSpaceFree(s: Str)
    ensures forall i :: 0 <= i < WordLength(s) ==> LeadingSpace(s[..WordLength(s)][i..]) == 0
  {
    hide LeadingSpace, WordLength;
    forall i | 0 <= i < WordLength(s) ensures LeadingSpace(s[..WordLength(s)][i..]) == 0 {
      WordSuffix(s, i);
    }
  }

  lemma {:induction false} FieldsAreSpaceFree(s: Str)
    ensures forall w :: w in Fields(s) ==> SpaceFree(w)
    decreases |s|
  {
    var t := TrimLeft(s);
    if t != [] {
      TrimLeftShorter(s);
      WordIsSpaceFree(t);
      FieldsAreSpaceFree(t[WordLength(t)..]);
    }
  }

  lemma {:induction false} WordBeforeSpace(w: Str, y: Str, i: nat)
    requires SpaceFree(w) && i <= |w| && (y == [] || LeadingSpace(y) > 0)
    ensures WordLength(w[i..] + y) == |w| - i
    decreases |w| - i
  {
    if i < |w| {
      WordBeforeSpace(w, y, i + 1);
      PrefixSpace(w[i..], y);
      assert (w[i..] + y)[1..] == w[i+1..] + y;
    } else {
      assert w[i..] + y == y;
    }
  }

  /** The first word comes off first, whatever white space follows it. */
  lemma FieldsOfWord(w: Str, y: Str)
    requires SpaceFree(w) && (y == [] || LeadingSpace(y) > 0)
    ensures Fields(w + y) == [w] + Fields(y)
  {
    hide LeadingSpace, WordLength;
    assert w[0..] == w;
    WordBeforeSpace(w, y, 0);
    PrefixSpace(w, y);
    var t := w + y;
    assert TrimLeft(t) == t && t[..|w|] == w && t[|w|..] == y;
  }

  /** Fields reads back exactly the words that were joined with single spaces. */
  lemma {:induction false} FieldsOfJoin(words: seq<Str>)
    requires forall w :: w in words ==> SpaceFree(w)
    ensures Fields(Join(words, ' ')) == words
  {
    hide LeadingSpace, WordLength, SpaceFree, Fields;
    if words == [] {
      FieldsOfNothing();
    } else {
      var w, rest := words[0], words[1..];
      FieldsOfJoin(rest);
      if rest == [] {
        FieldsOfNothing();
        FieldsOfWord(w, []);
        assert Join(words, ' ') == w + [];
      } else {
        assert LeadingSpace([' '] + Join(rest, ' ')) == 1 by { BlankLeads(Join(rest, ' ')); }
        FieldsOfWord(w, [' '] + Join(rest, ' '));
        FieldsSkipSpace(Join(rest, ' '));
        assert Join(words, ' ') == w + ([' '] + Join(rest, ' '));
      }
    }
  }

  lemma FieldsOfNothing()
    ensures Fields([]) == []
  {
    assert TrimLeft([]) == [];
  }

  lemma BlankLeads(s: Str)
    ensures LeadingSpace([' '] + s) == 1
  {
  }

  /** White space in front of a word does not show, of any kind and length. */
  lemma FieldsSkip(s: Str)
    requires LeadingSpace(s) > 0
    ensures Fields(s) == Fields(s[LeadingSpace(s)..])
  {
    hide LeadingSpace, WordLength;
  }

  lemma FieldsSkipSpace(s: Str)
    ensures Fields([' '] + s) == Fields(s)
  {
    assert LeadingSpace([' '] + s) == 1 && ([' '] + s)[1..] == s;
    assert TrimLeft([' '] + s) == TrimLeft(s);
  }

  // ---- Numbers ----

  function DigitChar(n: nat): (c: Byte)
    requires n < 10
    ensures '0' <= c <= '9' && c as int == 48 + n
  {
    (48 + n) as char
  }

  predicate IsDigit(c: Byte) {
    '0' <= c <= '9'
  }

  /** `strconv.FormatInt(n, 10)` for a non-negative number. */
  function FormatNat(n: nat): (r: Str)
    ensures r != [] && forall c :: c in r ==> IsDigit(c)
    ensures ParseNat(r) == n
  {
    if n < 10 then [DigitChar(n)]
    else
      var hi := FormatNat(n / 10);
      assert (hi + [DigitChar(n % 10)])[..|hi|] == hi;
      hi + [DigitChar(n % 10)]
  }

  /** The value of a string of digits. */
  function ParseNat(s: Str): nat
    requires forall c :: c in s ==> IsDigit(c)
  {
    if s == [] then 0
    else
      assert IsDigit(s[|s|-1]);
      10 * ParseNat(s[..|s|-1]) + (s[|s|-1] as int - 48)
  }

  const MAX_INT64: int := 0x7FFF_FFFF_FFFF_FFFF

  /** `strconv.Atoi` on a 64-bit platform: an optional sign, digits, and the int64 range. */
  function Atoi(s: Str): (r: Option<int>)
    ensures r.Some? ==> -MAX_INT64 - 1 <= r.value <= MAX_INT64
  {
    var body := if s != [] && (s[0] == '+' || s[0] == '-') then s[1..] else s;
    if body == [] || exists c :: c in body && !IsDigit(c) then None
    else
      var n: int := ParseNat(body);
      var v: int := if s[0] == '-' then -n else n;
      if -MAX_INT64 - 1 <= v <= MAX_INT64 then Some(v) else None
  }

  /** Reading back a printed number. */
  lemma AtoiFormat(n: nat)
    requires n <= MAX_INT64
    ensures Atoi(FormatNat(n)) == Some(n)
  {
    var s := FormatNat(n);
    assert s[0] in s && IsDigit(s[0]);
  }

  /** With a sign in front. */
  lemma AtoiSigned(n: nat)
    requires n <= MAX_INT64
    ensures Atoi("-" + FormatNat(n)) == Some(0 - n) && Atoi("+" + FormatNat(n)) == Some(n)
  {
    var s := FormatNat(n);
    assert ("-" + s)[1..] == s && ("+" + s)[1..] == s;
  }

  /** Anything but digits after an optional sign is no number, and neither is a number that does not
      fit. */
  lemma AtoiRefuses(s: Str, c: Byte)
    ensures c in s[Min(1, |s|)..] && !IsDigit(c) ==> Atoi(s) == None
    ensures Atoi([]) == None
    ensures |s| == 1 && !IsDigit(s[0]) ==> Atoi(s) == None
  {
    if c in s[Min(1, |s|)..] && !IsDigit(c) {
      assert c in s;
    }
  }

  lemma AtoiOverflow(n: nat)
    requires n > MAX_INT64
    ensures Atoi(FormatNat(n)) == None
  {
    var s := FormatNat(n);
    assert s[0] in s && IsDigit(s[0]);
  }

  const DECIMAL: Str := "0123456789"

  /** Numbers are printed in decimal: the last digit is the remainder, the rest is the quotient. */
  lemma FormatNatMeans(n: nat)
    ensures n < 10 ==> FormatNat(n) == [DECIMAL[n]]
    ensures n >= 10 ==> FormatNat(n) == FormatNat(n / 10) + [DECIMAL[n % 10]]
  {
  }
}
