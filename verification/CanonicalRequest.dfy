/** The canonical request: what a SigV4 signature is computed over. */
module CanonicalRequest {
  import opened Seqs
  import opened Strings
  import opened Http
  import CanonicalQuery

  const NEWLINE: Str := "\n"
  const COLON: Str := ":"

  function OrSlash(p: Str): Str {
    if p == [] then "/" else p
  }

  /** The path exactly as it appeared on the wire. */
  function CanonicalURI(r: Req): Str {
    if r.requestURI == [] then OrSlash(r.escapedPath)
    else if (HasPrefix(r.requestURI, "http://") || HasPrefix(r.requestURI, "https://")) && r.absolutePath.Some? then
      OrSlash(r.absolutePath.value)
    else OrSlash(Cut(r.requestURI, '?').before)
  }

  /** One header value with surrounding white space trimmed and inner runs collapsed. */
  function Normalize(v: Str): Str {
    Join(Fields(v), ' ')
  }

  /** Normalising keeps exactly the words of a value, and a second time changes nothing. */
  lemma NormalizeKeepsWords(v: Str)
    ensures Fields(Normalize(v)) == Fields(v) && Normalize(Normalize(v)) == Normalize(v)
  {
    FieldsAreSpaceFree(v);
    FieldsOfJoin(Fields(v));
  }

  /** The raw values a signed header name stands for. */
  function SignedValues(r: Req, name: Str): seq<Str> {
    if name == "host" then [if r.host == [] then r.urlHost else r.host]
    else if name == "content-length" then
      var values := Values(r.header, name);
      if values == [] && r.contentLength >= 0 then [FormatNat(r.contentLength)] else values
    else Values(r.header, name)
  }

  function HeaderValue(r: Req, name: Str): Str {
    Join(Map(Normalize, SignedValues(r, name)), ',')
  }

  method CanonicalHeaderValue(r: Req, name: Str) returns (v: Str)
    ensures v == HeaderValue(r, name)
  {
    var values := SignedValues(r, name);
    var trimmed: seq<Str> := [];
    for i := 0 to |values|
      invariant |trimmed| == i && forall j :: 0 <= j < i ==> trimmed[j] == Normalize(values[j])
    {
      trimmed := trimmed + [Join(Fields(values[i]), ' ')];
    }
    assert trimmed == Map(Normalize, values);
    return Join(trimmed, ',');
  }

  function HeaderLine(r: Req): Str -> Str {
    (name: Str) => name + COLON + HeaderValue(r, name)
  }

  /** `name:value\n` for every line. */
  function Block(lines: seq<Str>): Str {
    if lines == [] then [] else lines[0] + NEWLINE + Block(lines[1..])
  }

  function Text(r: Req, signed: seq<Str>, query: Str, payloadHash: Str): Str {
    Join([r.verb, CanonicalURI(r), query, Block(Map(HeaderLine(r), signed)), Join(signed, ';'), payloadHash], '\n')
  }

  /** The canonical request, or None where the query has a malformed escape. */
  function Build(r: Req, signed: seq<Str>, skip: Str, payloadHash: Str): Option<Str> {
    var query := CanonicalQuery.Canonical(r.rawQuery, skip);
    if query.None? then None else Some(Text(r, signed, query.value, payloadHash))
  }

  lemma BlockStep(done: Str, lines: seq<Str>, i: nat)
    requires i < |lines| && done + Block(lines[i..]) == Block(lines)
    ensures done + lines[i] + NEWLINE + Block(lines[i+1..]) == Block(lines)
  {
    assert lines[i..][1..] == lines[i+1..];
    Regroup(done, lines[i], NEWLINE, Block(lines[i+1..]));
  }

  lemma Regroup(a: Str, b: Str, c: Str, d: Str)
    ensures a + (b + c + d) == a + b + c + d
  {
  }

  /** The header block, line by line. */
  method HeaderBlock(r: Req, signed: seq<Str>) returns (headers: Str)
    ensures headers == Block(Map(HeaderLine(r), signed))
  {
    headers := [];
    ghost var lines := Map(HeaderLine(r), signed);
    for i := 0 to |signed|
      invariant headers + Block(lines[i..]) == Block(lines)
    {
      var v := CanonicalHeaderValue(r, signed[i]);
      BlockStep(headers, lines, i);
      headers := headers + (signed[i] + COLON + v) + NEWLINE;
    }
    assert Block(lines[|signed|..]) == [];
  }

  /** The source's function: the query first, then the header block line by line. */
  method BuildCanonical(r: Req, signed: seq<Str>, skip: Str, payloadHash: Str) returns (text: Option<Str>)
    ensures text == Build(r, signed, skip, payloadHash)
  {
    var query := CanonicalQuery.BuildCanonicalQuery(r.rawQuery, skip);
    if query.None? {
      return None;
    }
    var headers := HeaderBlock(r, signed);
    return Some(Join([r.verb, CanonicalURI(r), query.value, headers, Join(signed, ';'), payloadHash], '\n'));
  }

  // ---- The text determines its fields ----

  lemma {:induction false} BlockJoin(lines: seq<Str>, tail: seq<Str>)
    requires tail != []
    ensures Join(lines + [[]] + tail, '\n') == Block(lines) + NEWLINE + Join(tail, '\n')
  {
    var all := lines + [[]] + tail;
    if lines == [] {
      assert all[1..] == tail;
    } else {
      assert all[1..] == lines[1..] + [[]] + tail;
      BlockJoin(lines[1..], tail);
    }
  }

  function Lines(r: Req, signed: seq<Str>, query: Str, payloadHash: Str): seq<Str> {
    [r.verb, CanonicalURI(r), query] + (Map(HeaderLine(r), signed) + [[]] + [Join(signed, ';'), payloadHash])
  }

  lemma TextIsLines(r: Req, signed: seq<Str>, query: Str, payloadHash: Str)
    ensures Text(r, signed, query, payloadHash) == Join(Lines(r, signed, query, payloadHash), '\n')
  {
    var head := [r.verb, CanonicalURI(r), query];
    var headers := Map(HeaderLine(r), signed);
    var tail := [Join(signed, ';'), payloadHash];
    JoinAppend(head, headers + [[]] + tail, '\n');
    BlockJoin(headers, tail);
    JoinAppend(head, [Block(headers)] + tail, '\n');
    assert ([Block(headers)] + tail)[1..] == tail;
    assert head + ([Block(headers)] + tail) ==
           [r.verb, CanonicalURI(r), query, Block(headers), Join(signed, ';'), payloadHash];
  }

  lemma NormalizedIsOneLine(v: Str)
    ensures '\n' !in Normalize(v)
  {
    assert IsAsciiSpace('\n');
    JoinFree(Fields(v), ' ', '\n');
  }

  lemma HeaderValueIsOneLine(r: Req, name: Str)
    ensures '\n' !in HeaderValue(r, name)
  {
    var values := SignedValues(r, name);
    forall v | v in Map(Normalize, values) ensures '\n' !in v {
      var i :| 0 <= i < |values| && v == Normalize(values[i]);
      NormalizedIsOneLine(values[i]);
    }
    JoinFree(Map(Normalize, values), ',', '\n');
  }

  /** The fields that come from the request line and the signed-header list hold no newline, and
      a signed name holds no `;`. Query and header values need no such condition. */
  predicate OneLineFields(r: Req, signed: seq<Str>, payloadHash: Str) {
    && '\n' !in r.verb && '\n' !in CanonicalURI(r) && '\n' !in payloadHash
    && forall n :: n in signed ==> '\n' !in n && ';' !in n
  }

  lemma HeaderLinesAreLines(r: Req, signed: seq<Str>, line: Str)
    requires forall n :: n in signed ==> '\n' !in n
    requires line in Map(HeaderLine(r), signed)
    ensures '\n' !in line
  {
    hide HeaderValue;
    var i :| 0 <= i < |signed| && line == HeaderLine(r)(signed[i]);
    assert signed[i] in signed;
    HeaderValueIsOneLine(r, signed[i]);
  }

  lemma LinesAreLines(r: Req, signed: seq<Str>, query: Str, payloadHash: Str)
    requires OneLineFields(r, signed, payloadHash) && '\n' !in query
    ensures Split(Text(r, signed, query, payloadHash), '\n') == Lines(r, signed, query, payloadHash)
  {
    hide Text, HeaderLine, CanonicalURI, Split;
    forall line | line in Map(HeaderLine(r), signed) ensures '\n' !in line {
      HeaderLinesAreLines(r, signed, line);
    }
    JoinFree(signed, ';', '\n');
    TextIsLines(r, signed, query, payloadHash);
    SplitJoin(Lines(r, signed, query, payloadHash), '\n');
  }

  /** Requests that agree on the signed fields have the same canonical request. */
  lemma BuildCongruent(r1: Req, r2: Req, signed: seq<Str>, skip: Str, payloadHash: Str)
    requires r1.verb == r2.verb && CanonicalURI(r1) == CanonicalURI(r2)
    requires CanonicalQuery.Canonical(r1.rawQuery, skip) == CanonicalQuery.Canonical(r2.rawQuery, skip)
    requires forall n :: n in signed ==> HeaderValue(r1, n) == HeaderValue(r2, n)
    ensures Build(r1, signed, skip, payloadHash) == Build(r2, signed, skip, payloadHash)
  {
    forall i | 0 <= i < |signed| ensures HeaderLine(r1)(signed[i]) == HeaderLine(r2)(signed[i]) {
      assert signed[i] in signed;
    }
    assert Map(HeaderLine(r1), signed) == Map(HeaderLine(r2), signed);
  }

  lemma JoinNamesInjective(s1: seq<Str>, s2: seq<Str>)
    requires |s1| == |s2| && Join(s1, ';') == Join(s2, ';')
    requires forall n :: n in s1 + s2 ==> ';' !in n
    ensures s1 == s2
  {
    assert forall n :: n in s1 ==> n in s1 + s2;
    assert forall n :: n in s2 ==> n in s1 + s2;
    if s1 != [] {
      SplitJoin(s1, ';');
      SplitJoin(s2, ';');
    }
  }

  /** Equal canonical requests agree on every field that was signed: verb, URI, query (as a
      multiset of decoded pairs), signed-header list, every canonical header value, payload hash. */
  lemma Unambiguous(r1: Req, s1: seq<Str>, h1: Str, r2: Req, s2: seq<Str>, h2: Str, skip: Str)
    requires OneLineFields(r1, s1, h1) && OneLineFields(r2, s2, h2)
    requires Build(r1, s1, skip, h1).Some? && Build(r1, s1, skip, h1) == Build(r2, s2, skip, h2)
    ensures r1.verb == r2.verb && CanonicalURI(r1) == CanonicalURI(r2) && s1 == s2 && h1 == h2
    ensures CanonicalQuery.Canonical(r1.rawQuery, skip) == CanonicalQuery.Canonical(r2.rawQuery, skip)
    ensures multiset(CanonicalQuery.Kept(r1.rawQuery, skip)) == multiset(CanonicalQuery.Kept(r2.rawQuery, skip))
    ensures forall n :: n in s1 ==> HeaderValue(r1, n) == HeaderValue(r2, n)
  {
    var q1 := CanonicalQuery.Canonical(r1.rawQuery, skip).value;
    var q2 := CanonicalQuery.Canonical(r2.rawQuery, skip).value;
    CanonicalQuery.CanonicalOneLine(r1.rawQuery, skip);
    CanonicalQuery.CanonicalOneLine(r2.rawQuery, skip);
    LinesAreLines(r1, s1, q1, h1);
    LinesAreLines(r2, s2, q2, h2);
    SameLines(r1, s1, q1, h1, r2, s2, q2, h2);
    CanonicalQuery.CanonicalSoundAndComplete(r1.rawQuery, r2.rawQuery, skip);
  }

  lemma SameLines(r1: Req, s1: seq<Str>, q1: Str, h1: Str, r2: Req, s2: seq<Str>, q2: Str, h2: Str)
    requires forall n :: n in s1 + s2 ==> ';' !in n
    requires Lines(r1, s1, q1, h1) == Lines(r2, s2, q2, h2)
    ensures r1.verb == r2.verb && CanonicalURI(r1) == CanonicalURI(r2) && q1 == q2 && s1 == s2 && h1 == h2
    ensures forall n :: n in s1 ==> HeaderValue(r1, n) == HeaderValue(r2, n)
  {
    var l1, l2 := Lines(r1, s1, q1, h1), Lines(r2, s2, q2, h2);
    assert |l1| == |s1| + 6 && |l2| == |s2| + 6;
    assert l1[0] == l2[0] && l1[1] == l2[1] && l1[2] == l2[2];
    assert l1[|l1| - 1] == l2[|l2| - 1] && l1[|l1| - 2] == l2[|l2| - 2];
    JoinNamesInjective(s1, s2);
    forall i | 0 <= i < |s1| ensures HeaderValue(r1, s1[i]) == HeaderValue(r2, s1[i]) {
      assert l1[3 + i] == HeaderLine(r1)(s1[i]) && l2[3 + i] == HeaderLine(r2)(s1[i]);
      var name := s1[i];
      assert HeaderLine(r1)(name)[|name| + 1..] == HeaderValue(r1, name);
      assert HeaderLine(r2)(name)[|name| + 1..] == HeaderValue(r2, name);
    }
  }

  // ---- What a canonical request looks like ----

  /** The path bytes of a request line in origin form: everything before the question mark. */
  ghost predicate WirePath(r: Req, p: Str) {
    && '?' !in p && r.requestURI != [] && !("http://" <= r.requestURI) && !("https://" <= r.requestURI)
    && (r.requestURI == p || (|p| < |r.requestURI| && r.requestURI[..|p|] == p && r.requestURI[|p|] == '?'))
  }

  /** The canonical URI is the path as it was on the wire, byte for byte; an empty one is a slash. */
  lemma PathIsWirePath(r: Req, p: Str)
    requires WirePath(r, p)
    ensures CanonicalURI(r) == if p == [] then "/" else p
  {
    var uri := r.requestURI;
    if uri == p {
      assert Cut(uri, '?').before == uri;
    } else {
      assert uri == p + ['?'] + uri[|p| + 1..];
      CutAt(p, '?', uri[|p| + 1..]);
    }
  }

  /** The other forms: an absolute URI that parses, and a request that never had a request line. */
  lemma PathOfOtherForms(r: Req, p: Str)
    ensures ("http://" <= r.requestURI || "https://" <= r.requestURI) && r.absolutePath == Some(p) ==>
              CanonicalURI(r) == if p == [] then "/" else p
    ensures r.requestURI == [] ==> CanonicalURI(r) == if r.escapedPath == [] then "/" else r.escapedPath
  {
  }

  /** One line per signed header. */
  ghost function HeaderText(r: Req, signed: seq<Str>): Str {
    if signed == [] then [] else signed[0] + ":" + HeaderValue(r, signed[0]) + "\n" + HeaderText(r, signed[1..])
  }

  lemma {:induction false} BlockIs(r: Req, signed: seq<Str>)
    ensures Block(Map(HeaderLine(r), signed)) == HeaderText(r, signed)
  {
    hide HeaderValue;
    if signed != [] {
      BlockIs(r, signed[1..]);
      assert Map(HeaderLine(r), signed)[1..] == Map(HeaderLine(r), signed[1..]);
    }
  }

  /** The canonical request, line by line. */
  lemma BuildIs(r: Req, signed: seq<Str>, skip: Str, payloadHash: Str)
    requires CanonicalQuery.Decodable(r.rawQuery)
    ensures Build(r, signed, skip, payloadHash) == Some(
              r.verb + "\n" + CanonicalURI(r) + "\n" + CanonicalQuery.Canonical(r.rawQuery, skip).value + "\n"
              + HeaderText(r, signed) + "\n" + Join(signed, ';') + "\n" + payloadHash)
  {
    hide CanonicalURI, HeaderLine, Block, HeaderText, CanonicalQuery.Render, CanonicalQuery.Decodable,
      CanonicalQuery.Kept;
    BlockIs(r, signed);
    SixLines(r.verb, CanonicalURI(r), CanonicalQuery.Canonical(r.rawQuery, skip).value, HeaderText(r, signed),
             Join(signed, ';'), payloadHash);
  }

  lemma SixLines(a: Str, b: Str, c: Str, d: Str, e: Str, f: Str)
    ensures Join([a, b, c, d, e, f], '\n') == a + "\n" + b + "\n" + c + "\n" + d + "\n" + e + "\n" + f
  {
    JoinAppend([a, b, c, d, e], [f], '\n');
    JoinAppend([a, b, c, d], [e], '\n');
    JoinAppend([a, b, c], [d], '\n');
    JoinAppend([a, b], [c], '\n');
    JoinAppend([a], [b], '\n');
    assert [a, b, c, d, e] + [f] == [a, b, c, d, e, f] && [a, b, c, d] + [e] == [a, b, c, d, e];
    assert [a, b, c] + [d] == [a, b, c, d] && [a, b] + [c] == [a, b, c] && [a] + [b] == [a, b];
  }

  /** Normalising identifies exactly the values with the same words, and prints them with single
      spaces between. */
  lemma NormalizeMeans(v: Str, w: Str)
    ensures Normalize(v) == Normalize(w) <==> Fields(v) == Fields(w)
    ensures Normalize(v) == Join(Fields(v), ' ')
  {
    hide Fields;
    NormalizeKeepsWords(v);
    NormalizeKeepsWords(w);
  }

  /** What a signed name stands for: the host, the declared or known length, or the header's values in
      order, joined with commas. */
  lemma HeaderValueMeans(r: Req, n: Str, v: Str, vs: seq<Str>)
    ensures HeaderValue(r, "host") == Normalize(if r.host != [] then r.host else r.urlHost)
    ensures n != "host" && Values(r.header, n) == [v] ==> HeaderValue(r, n) == Normalize(v)
    ensures n != "host" && vs != [] && Values(r.header, n) == vs + [v] ==>
              HeaderValue(r, n) == Join(Map(Normalize, vs), ',') + "," + Normalize(v)
    ensures n != "host" && n != "content-length" && Values(r.header, n) == [] ==> HeaderValue(r, n) == []
    ensures Values(r.header, "content-length") == [] && r.contentLength >= 0 ==>
              HeaderValue(r, "content-length") == Normalize(FormatNat(r.contentLength))
  {
    hide Normalize, CanonicalKey, FormatNat;
    HostIsNoLength();
    MapAppend(Normalize, vs, [v]);
    if vs != [] {
      JoinAppend(Map(Normalize, vs), [Normalize(v)], ',');
    }
    assert Map(Normalize, [v]) == [Normalize(v)];
  }

  lemma HostIsNoLength()
    ensures "content-length" != "host"
  {
    assert |"content-length"| != |"host"|;
  }
}
