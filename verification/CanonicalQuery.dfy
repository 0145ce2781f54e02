/** The canonical query string: decode the raw query, drop one key, re-encode, sort, print. */
module CanonicalQuery {
  import opened Seqs
  import opened Strings
  import opened UriCoding

  datatype Pair = Pair(k: Str, v: Str)

  predicate NonEmpty(p: Str) { p != [] }

  /** The non-empty `&`-separated parts of a raw query. */
  function Parts(raw: Str): seq<Str> {
    Filter(NonEmpty, Split(raw, '&'))
  }

  predicate PartDecodable(part: Str) {
    PathUnescape(Cut(part, '=').before).Some? && PathUnescape(Cut(part, '=').after).Some?
  }

  /** The decoded key and value of a part; arbitrary where a percent escape is malformed. */
  function DecodePart(part: Str): Pair {
    if PartDecodable(part)
    then Pair(PathUnescape(Cut(part, '=').before).value, PathUnescape(Cut(part, '=').after).value)
    else Pair([], [])
  }

  predicate Decodable(raw: Str) {
    forall p :: p in Parts(raw) ==> PartDecodable(p)
  }

  /** The decoded pairs of a raw query, in order. */
  function Pairs(raw: Str): seq<Pair> {
    Map(DecodePart, Parts(raw))
  }

  /** What the canonical form keeps: every pair whose decoded key is not the skipped one ("" skips none). */
  function Keeps(skip: Str): Pair -> bool {
    (p: Pair) => skip == [] || p.k != skip
  }

  function Kept(raw: Str, skip: Str): seq<Pair> {
    Filter(Keeps(skip), Pairs(raw))
  }

  function EncodePair(p: Pair): Pair {
    Pair(UriEncode(p.k, true), UriEncode(p.v, true))
  }

  function PrintPair(p: Pair): Str {
    p.k + "=" + p.v
  }

  /** Encoded key first, then encoded value. */
  predicate PairLeq(a: Pair, b: Pair) {
    if a.k != b.k then Leq(a.k, b.k) else Leq(a.v, b.v)
  }

  function Render(pairs: seq<Pair>): Str {
    Join(Map(PrintPair, Sort(PairLeq, Map(EncodePair, pairs))), '&')
  }

  /** The canonical query, or None where the source reports a malformed escape. */
  function Canonical(raw: Str, skip: Str): Option<Str> {
    if Decodable(raw) then Some(Render(Kept(raw, skip))) else None
  }

  /** The encoded pairs that a list of raw parts contributes. */
  function EncodedKept(parts: seq<Str>, skip: Str): seq<Pair> {
    Map(EncodePair, Filter(Keeps(skip), Map(DecodePart, Filter(NonEmpty, parts))))
  }

  lemma EncodedKeptOne(part: Str, skip: Str)
    ensures EncodedKept([part], skip) ==
            if part == [] || !Keeps(skip)(DecodePart(part)) then [] else [EncodePair(DecodePart(part))]
  {
    assert Filter(NonEmpty, [part]) == if part == [] then [] else [part];
    if part != [] {
      assert Map(DecodePart, [part]) == [DecodePart(part)];
      var d := DecodePart(part);
      assert Filter(Keeps(skip), [d]) == if Keeps(skip)(d) then [d] else [];
    }
  }

  lemma EncodedNothing(parts: seq<Str>, skip: Str)
    ensures EncodedKept(parts[..0], skip) == []
  {
  }

  lemma EncodedKeptSnoc(parts: seq<Str>, part: Str, skip: Str)
    ensures EncodedKept(parts + [part], skip) == EncodedKept(parts, skip) + EncodedKept([part], skip)
  {
    var xs, ys := Filter(NonEmpty, parts), Filter(NonEmpty, [part]);
    FilterAppend(NonEmpty, parts, [part]);
    MapAppend(DecodePart, xs, ys);
    FilterAppend(Keeps(skip), Map(DecodePart, xs), Map(DecodePart, ys));
    MapAppend(EncodePair, Filter(Keeps(skip), Map(DecodePart, xs)), Filter(Keeps(skip), Map(DecodePart, ys)));
  }

  /** What the next part adds. */
  lemma EncodedStep(parts: seq<Str>, i: nat, skip: Str)
    requires i < |parts|
    ensures EncodedKept(parts[..i+1], skip) == EncodedKept(parts[..i], skip) + EncodedKept([parts[i]], skip)
  {
    hide EncodedKept;
    assert parts[..i+1] == parts[..i] + [parts[i]];
    EncodedKeptSnoc(parts[..i], parts[i], skip);
  }

  lemma EncodedPart(part: Str, skip: Str)
    requires part != [] && PartDecodable(part)
    ensures var k, v := PathUnescape(Cut(part, '=').before).value, PathUnescape(Cut(part, '=').after).value;
            EncodedKept([part], skip) ==
            if skip != [] && k == skip then [] else [Pair(UriEncode(k, true), UriEncode(v, true))]
  {
    hide EncodedKept, PathUnescape, Cut, UriEncode;
    EncodedKeptOne(part, skip);
  }

  /** The first loop of the source: decode, skip and encode, part by part. */
  method EncodeParts(parts: seq<Str>, skip: Str) returns (r: Option<seq<Pair>>)
    ensures r.None? <==> exists p :: p in parts && p != [] && !PartDecodable(p)
    ensures r.Some? ==> r.value == EncodedKept(parts, skip)
  {
    hide EncodedKept, PathUnescape, Cut, UriEncode;
    var pairs: seq<Pair> := [];
    assert EncodedKept(parts[..0], skip) == [] by { EncodedNothing(parts, skip); }
    for i := 0 to |parts|
      invariant forall p :: p in parts[..i] && p != [] ==> PartDecodable(p)
      invariant pairs == EncodedKept(parts[..i], skip)
    {
      var part := parts[i];
      assert parts[..i+1] == parts[..i] + [part];
      EncodedStep(parts, i, skip);
      if part == [] {
        EncodedKeptOne(part, skip);
        continue;
      }
      var kv := Cut(part, '=');
      var dk := PathUnescape(kv.before);
      if dk.None? {
        assert part in parts && !PartDecodable(part);
        return None;
      }
      var dv := PathUnescape(kv.after);
      if dv.None? {
        assert part in parts && !PartDecodable(part);
        return None;
      }
      EncodedPart(part, skip);
      if skip != [] && dk.value == skip {
        continue;
      }
      var ek := EncodeUri(dk.value, true);
      var ev := EncodeUri(dv.value, true);
      pairs := pairs + [Pair(ek, ev)];
    }
    assert parts[..|parts|] == parts;
    return Some(pairs);
  }

  /** The last loop of the source. */
  method PrintPairs(pairs: seq<Pair>) returns (elems: seq<Str>)
    ensures elems == Map(PrintPair, pairs)
  {
    elems := [];
    for i := 0 to |pairs|
      invariant |elems| == i && forall j :: 0 <= j < i ==> elems[j] == PrintPair(pairs[j])
    {
      elems := elems + [pairs[i].k + "=" + pairs[i].v];
    }
  }

  /** The source's function: encode the kept parts, sort them, print them. */
  method BuildCanonicalQuery(raw: Str, skip: Str) returns (r: Option<Str>)
    ensures r == Canonical(raw, skip)
  {
    if raw == [] {
      assert Split(raw, '&') == [[]];
      assert Parts(raw) == [];
      return Some([]);
    }
    var encoded := EncodeParts(Split(raw, '&'), skip);
    if encoded.None? {
      return None;
    }
    assert encoded.value == Map(EncodePair, Kept(raw, skip));
    var pairs := Sort(PairLeq, encoded.value);
    var elems := PrintPairs(pairs);
    return Some(Join(elems, '&'));
  }

  lemma PairLeqIsTotalOrder()
    ensures TotalOrder(PairLeq)
  {
    forall a: Pair, b: Pair ensures (PairLeq(a, b) || PairLeq(b, a)) && (PairLeq(a, b) && PairLeq(b, a) ==> a == b) {
      LeqTotal(a.k, b.k);
      LeqTotal(a.v, b.v);
    }
    forall a: Pair, b: Pair, c: Pair | PairLeq(a, b) && PairLeq(b, c) ensures PairLeq(a, c) {
      LeqIsTotalOrder();
    }
  }

  /** Joining non-empty, `&`-free parts loses nothing, not even for the empty list. */
  lemma PartsOfJoin(parts: seq<Str>)
    requires forall p :: p in parts ==> p != [] && '&' !in p
    ensures Parts(Join(parts, '&')) == parts
  {
    if parts == [] {
      assert Split([], '&') == [[]];
    } else {
      SplitJoin(parts, '&');
      FilterAll(NonEmpty, parts);
    }
  }

  function DecodePair(p: Pair): Pair {
    if PathUnescape(p.k).Some? && PathUnescape(p.v).Some?
    then Pair(PathUnescape(p.k).value, PathUnescape(p.v).value)
    else p
  }

  /** A printed pair is non-empty, one part of a query, and one line. */
  lemma PrintedPart(p: Pair)
    ensures var part := PrintPair(EncodePair(p)); part != [] && '&' !in part && '\n' !in part
  {
  }

  /** Every printed pair decodes to the pair it was printed from. */
  lemma PrintedPartDecodes(p: Pair)
    ensures var e := EncodePair(p);
            && Cut(PrintPair(e), '=') == Pieces(e.k, e.v, true)
            && PartDecodable(PrintPair(e)) && DecodePart(PrintPair(e)) == DecodePair(e) == p
  {
    var e := EncodePair(p);
    assert '=' !in e.k;
    CutAt(e.k, '=', e.v);
    UnescapeEncode(p.k, false, true);
    UnescapeEncode(p.v, false, true);
  }

  /** The encoded pairs of a rendered query, and the parts printed from them. */
  lemma RenderedElements(pairs: seq<Pair>)
    ensures var sorted := Sort(PairLeq, Map(EncodePair, pairs));
            && Parts(Render(pairs)) == Map(PrintPair, sorted)
            && (forall e :: e in sorted ==> exists p :: p in pairs && e == EncodePair(p))
            && '\n' !in Render(pairs)
  {
    var encoded := Map(EncodePair, pairs);
    var sorted := Sort(PairLeq, encoded);
    forall e | e in sorted ensures exists p :: p in pairs && e == EncodePair(p) {
      assert e in multiset(encoded);
      var j :| 0 <= j < |encoded| && encoded[j] == e;
      assert pairs[j] in pairs;
    }
    var elems := Map(PrintPair, sorted);
    forall part | part in elems ensures part != [] && '&' !in part && '\n' !in part {
      var i :| 0 <= i < |elems| && elems[i] == part;
      assert sorted[i] in sorted;
      var p :| p in pairs && sorted[i] == EncodePair(p);
      PrintedPart(p);
    }
    PartsOfJoin(elems);
    JoinFree(elems, '&', '\n');
  }

  lemma DecodeEncoded(pairs: seq<Pair>)
    ensures Map(DecodePair, Map(EncodePair, pairs)) == pairs
  {
    forall i | 0 <= i < |pairs| ensures DecodePair(EncodePair(pairs[i])) == pairs[i] {
      PrintedPartDecodes(pairs[i]);
    }
  }

  lemma RenderedDecodes(pairs: seq<Pair>)
    ensures Decodable(Render(pairs))
    ensures Pairs(Render(pairs)) == Map(DecodePair, Sort(PairLeq, Map(EncodePair, pairs)))
  {
    var sorted := Sort(PairLeq, Map(EncodePair, pairs));
    RenderedElements(pairs);
    var parts := Parts(Render(pairs));
    forall i | 0 <= i < |parts| ensures PartDecodable(parts[i]) && DecodePart(parts[i]) == DecodePair(sorted[i]) {
      assert sorted[i] in sorted;
      var p :| p in pairs && sorted[i] == EncodePair(p);
      PrintedPartDecodes(p);
    }
  }

  /** A rendered query read back: it decodes, to a permutation of the pairs it was made from. */
  lemma RenderedPairs(pairs: seq<Pair>)
    ensures Decodable(Render(pairs))
    ensures multiset(Pairs(Render(pairs))) == multiset(pairs)
  {
    var encoded := Map(EncodePair, pairs);
    RenderedDecodes(pairs);
    MapMultiset(DecodePair, Sort(PairLeq, encoded), encoded);
    DecodeEncoded(pairs);
  }

  /** Rendering is a complete invariant of the multiset of pairs. */
  lemma RenderCanonical(ps: seq<Pair>, qs: seq<Pair>)
    ensures Render(ps) == Render(qs) <==> multiset(ps) == multiset(qs)
  {
    if multiset(ps) == multiset(qs) {
      MapMultiset(EncodePair, ps, qs);
      PairLeqIsTotalOrder();
      SortCanonical(PairLeq, Map(EncodePair, ps), Map(EncodePair, qs));
    }
    if Render(ps) == Render(qs) {
      RenderedPairs(ps);
      RenderedPairs(qs);
    }
  }

  /** Sound and complete: two decodable queries have the same canonical form exactly when they
      carry the same multiset of decoded pairs, the skipped key aside. */
  lemma CanonicalSoundAndComplete(q1: Str, q2: Str, skip: Str)
    requires Decodable(q1) && Decodable(q2)
    ensures Canonical(q1, skip) == Canonical(q2, skip)
       <==> multiset(Kept(q1, skip)) == multiset(Kept(q2, skip))
  {
    RenderCanonical(Kept(q1, skip), Kept(q2, skip));
  }

  /** Reordering the parts of a query, repeating `&`, changes nothing. */
  lemma CanonicalReorder(q1: Str, q2: Str, skip: Str)
    requires multiset(Parts(q1)) == multiset(Parts(q2))
    ensures Canonical(q1, skip) == Canonical(q2, skip)
  {
    assert forall p :: p in Parts(q1) <==> p in multiset(Parts(q1));
    assert forall p :: p in Parts(q2) <==> p in multiset(Parts(q2));
    assert Decodable(q1) <==> Decodable(q2);
    if Decodable(q1) {
      MapMultiset(DecodePart, Parts(q1), Parts(q2));
      FilterMultiset(Keeps(skip), Pairs(q1), Pairs(q2));
      CanonicalSoundAndComplete(q1, q2, skip);
    }
  }

  /** Canonicalising a canonical query, skipping the same key or none, returns it unchanged. */
  lemma CanonicalIdempotent(raw: Str, skip: Str)
    requires Decodable(raw)
    ensures var c := Canonical(raw, skip).value;
            Canonical(c, skip) == Canonical(c, []) == Some(c)
  {
    var kept := Kept(raw, skip);
    var c := Render(kept);
    RenderedPairs(kept);
    assert forall p :: p in Pairs(c) ==> p in multiset(kept);
    FilterAll(Keeps(skip), Pairs(c));
    FilterAll(Keeps([]), Pairs(c));
    RenderCanonical(Pairs(c), kept);
  }

  /** A canonical query is one line over the encoder's alphabet. */
  lemma CanonicalOneLine(raw: Str, skip: Str)
    requires Decodable(raw)
    ensures '\n' !in Canonical(raw, skip).value
  {
    RenderedElements(Kept(raw, skip));
  }

  // ---- What a canonical query looks like ----

  /** Encoded key first, then encoded value, byte by byte. */
  ghost predicate Ascend(a: Str, b: Str) {
    var p, q := Cut(a, '='), Cut(b, '=');
    AtMost(p.before, q.before) && (p.before == q.before ==> AtMost(p.after, q.after))
  }

  lemma SortedAscend(ps: seq<Pair>, i: nat, j: nat)
    requires i < j < |ps|
    ensures var s := Sort(PairLeq, ps); |s| == |ps| && PairLeq(s[i], s[j])
  {
    hide PairLeq;
    PairLeqIsTotalOrder();
    SortSorts(PairLeq, ps);
    assert |multiset(Sort(PairLeq, ps))| == |multiset(ps)|;
  }

  /** The parts of a canonical query are printed pairs of the query's own, each "key=value" in the
      encoder's alphabet, in ascending order. */
  lemma CanonicalAscends(raw: Str, skip: Str, i: nat, j: nat)
    requires Decodable(raw) && i < j < |Parts(Canonical(raw, skip).value)|
    ensures var parts := Parts(Canonical(raw, skip).value); Ascend(parts[i], parts[j])
  {
    hide Decodable, PairLeq, Kept, EncodePair, Parts, Render;
    var ps := Kept(raw, skip);
    var sorted := Sort(PairLeq, Map(EncodePair, ps));
    RenderedElements(ps);
    SortedAscend(Map(EncodePair, ps), i, j);
    assert sorted[i] in sorted && sorted[j] in sorted;
    var p :| p in ps && sorted[i] == EncodePair(p);
    var q :| q in ps && sorted[j] == EncodePair(q);
    PrintedPartDecodes(p);
    PrintedPartDecodes(q);
    PairLeqMeans(sorted[i], sorted[j]);
  }

  lemma PairLeqMeans(a: Pair, b: Pair)
    requires PairLeq(a, b)
    ensures AtMost(a.k, b.k) && (a.k == b.k ==> AtMost(a.v, b.v))
  {
    hide Leq, AtMost;
    LeqMeans(a.k, b.k);
    LeqMeans(a.v, b.v);
    AtMostSelf(a.k);
  }

  lemma AtMostSelf(a: Str)
    ensures AtMost(a, a)
  {
    assert a[..|a|] == a[..|a|];
  }

  lemma OnePart(p: Pair)
    ensures var raw := PrintPair(EncodePair(p)); Decodable(raw) && Pairs(raw) == [p]
  {
    hide PartDecodable, DecodePart, EncodePair, PrintPair, Cut, Split;
    var raw := PrintPair(EncodePair(p));
    PrintedPart(p);
    PrintedPartDecodes(p);
    JoinOne(raw, '&');
    PartsOfJoin([raw]);
  }

  lemma KeptOne(raw: Str, p: Pair, skip: Str)
    requires Pairs(raw) == [p]
    ensures Kept(raw, skip) == if skip != [] && p.k == skip then [] else [p]
  {
    hide Pairs;
    assert Filter(Keeps(skip), [p]) == if Keeps(skip)(p) then [p] else [];
  }

  /** One pair in, one pair out: the key and value as written, escaped anew. */
  lemma CanonicalOfOne(k: Str, v: Str, skip: Str)
    ensures var raw := UriEncode(k, true) + "=" + UriEncode(v, true);
            && Pairs(raw) == [Pair(k, v)]
            && Canonical(raw, skip) == Some(if skip != [] && k == skip then [] else raw)
  {
    hide Render, Pairs, Decodable, Kept, EncodePair, PrintPair, UriEncode;
    PrintedIs(Pair(k, v));
    OnePart(Pair(k, v));
    KeptOne(PrintPair(EncodePair(Pair(k, v))), Pair(k, v), skip);
    RenderOne(Pair(k, v));
  }

  lemma PrintedIs(p: Pair)
    ensures PrintPair(EncodePair(p)) == UriEncode(p.k, true) + "=" + UriEncode(p.v, true)
  {
  }

  lemma RenderOne(p: Pair)
    ensures Render([]) == [] && Render([p]) == PrintPair(EncodePair(p))
  {
    assert Map(EncodePair, [p]) == [EncodePair(p)];
    assert Sort(PairLeq, [EncodePair(p)]) == [EncodePair(p)];
    assert Map(PrintPair, [EncodePair(p)]) == [PrintPair(EncodePair(p))];
  }
}
