/** What is read of a query against what is signed of it. The parser reads the first form-decoded
    value of a name and skips parts with a semicolon; the signature covers the multiset of
    path-decoded pairs. This module says exactly when the second determines the first. */
module QueryReading {
  import opened Seqs
  import opened Strings
  import opened UriCoding
  import opened CanonicalQuery
  import opened Presign

  /** A value that every spelling of it reads alike. */
  predicate PlainValue(v: Str) { '+' !in v && ';' !in v }

  predicate PlainName(n: Str) { '+' !in n && ';' !in n && ' ' !in n }

  // ---- One part ----

  /** The decoders differ only where the decoded text holds a plus. */
  lemma {:induction false} PathReadsForm(s: Str, w: Str)
    requires PathUnescape(s) == Some(w) && '+' !in w
    ensures QueryUnescape(s) == Some(w)
    decreases |s|
  {
    if s != [] {
      var rest := if s[0] == '%' then s[3..] else s[1..];
      assert w == [w[0]] + w[1..] && Unescape(rest, false) == Some(w[1..]) by { PathHead(s, w); }
      PathReadsForm(rest, w[1..]);
      assert w[0] in w;
    }
  }

  lemma PathHead(s: Str, w: Str)
    requires s != [] && PathUnescape(s) == Some(w)
    ensures w != [] && Unescape(if s[0] == '%' then s[3..] else s[1..], false) == Some(w[1..])
    ensures s[0] == '%' ==> |s| >= 3 && IsHex(s[1]) && IsHex(s[2])
    ensures s[0] != '%' ==> w[0] == s[0]
  {
    var c: Byte := if s[0] == '%' then (16 * UnHex(s[1]) + UnHex(s[2])) as char else s[0];
    PrependTail(c, Unescape(if s[0] == '%' then s[3..] else s[1..], false), w);
  }

  /** A byte that escapes do not use shows in the decoded text. */
  lemma {:induction false} RawBytesShow(s: Str, w: Str, c: Byte)
    requires PathUnescape(s) == Some(w) && c !in w && c != '%' && !IsHex(c)
    ensures c !in s
    decreases |s|
  {
    if s != [] {
      PathHead(s, w);
      var n := if s[0] == '%' then 3 else 1;
      assert w == [w[0]] + w[1..];
      RawBytesShow(s[n..], w[1..], c);
      assert s == s[..n] + s[n..];
    }
  }

  /** A part with a plain name and a plain value is read as it is signed. */
  lemma PartReads(part: Str, n: Str, w: Str)
    requires PartDecodable(part) && DecodePart(part) == Pair(n, w) && PlainName(n) && PlainValue(w)
    ensures FormPart(part) && QueryUnescape(Cut(part, '=').before) == Some(n)
    ensures QueryUnescape(Cut(part, '=').after) == Some(w)
  {
    hide Unescape;
    var kv := Cut(part, '=');
    PathReadsForm(kv.before, n);
    PathReadsForm(kv.after, w);
    RawBytesShow(kv.before, n, ';');
    RawBytesShow(kv.after, w, ';');
  }

  lemma OtherPartReads(part: Str, n: Str)
    requires PartDecodable(part) && DecodePart(part).k != n && PlainName(n)
    ensures QueryUnescape(Cut(part, '=').before) != Some(n)
  {
    hide Unescape;
    UnescapersAgree(Cut(part, '=').before, n);
  }

  // ---- One reading for one multiset of pairs ----

  ghost predicate Has(ps: seq<Pair>, n: Str) { exists p :: p in ps && p.k == n }

  /** All values of the name are the same plain one. */
  ghost predicate Always(ps: seq<Pair>, n: Str, w: Str) {
    PlainValue(w) && forall p :: p in ps && p.k == n ==> p.v == w
  }

  lemma {:induction false} LookupAlways(parts: seq<Str>, n: Str, w: Str)
    requires (forall p :: p in parts ==> PartDecodable(p)) && PlainName(n) && Always(Map(DecodePart, parts), n, w)
    ensures Lookup(parts, n) == if Has(Map(DecodePart, parts), n) then Some(w) else None
  {
    hide PartDecodable, DecodePart, FormPart, QueryUnescape, Cut, PlainName;
    if parts != [] {
      var d, ds := DecodePart(parts[0]), Map(DecodePart, parts[1..]);
      assert Map(DecodePart, parts) == [d] + ds;
      assert d in Map(DecodePart, parts) && forall p :: p in ds ==> p in Map(DecodePart, parts);
      LookupAlways(parts[1..], n, w);
      if d.k == n {
        assert d == Pair(n, w);
        PartReads(parts[0], n, w);
      } else {
        OtherPartReads(parts[0], n);
        assert Has([d] + ds, n) <==> Has(ds, n);
      }
    }
  }

  /** The name has one value at most, and a plain one. */
  ghost predicate Unequivocal(ps: seq<Pair>, n: Str) {
    forall p, q :: p in ps && q in ps && p.k == n && q.k == n ==> p.v == q.v && PlainValue(p.v)
  }

  lemma UnequivocalIsAlways(ps: seq<Pair>, n: Str) returns (w: Str)
    requires Unequivocal(ps, n)
    ensures Always(ps, n, w)
  {
    if Has(ps, n) {
      var p :| p in ps && p.k == n;
      w := p.v;
    } else {
      w := [];
    }
  }

  lemma KeptHasAll(raw: Str, skip: Str, n: Str)
    requires n != skip
    ensures forall p: Pair :: p.k == n ==> (p in Pairs(raw) <==> p in Kept(raw, skip))
  {
    hide Pairs;
  }

  lemma SamePairs(ps: seq<Pair>, qs: seq<Pair>)
    requires multiset(ps) == multiset(qs)
    ensures forall p :: p in ps <==> p in qs
  {
    forall p ensures p in ps <==> p in qs {
      assert p in ps <==> p in multiset(ps);
      assert p in qs <==> p in multiset(qs);
    }
  }

  /** Two queries with one canonical form give one reading of an unequivocal name. */
  lemma ReadsAsSigned(q1: Str, q2: Str, skip: Str, n: Str)
    requires Decodable(q1) && Decodable(q2) && Canonical(q1, skip) == Canonical(q2, skip)
    requires PlainName(n) && n != skip && Unequivocal(Kept(q1, skip), n)
    ensures Lookup(Parts(q1), n) == Lookup(Parts(q2), n)
  {
    hide Canonical, Kept, Parts, PlainName, Lookup, PartDecodable, DecodePart;
    CanonicalSoundAndComplete(q1, q2, skip);
    SamePairs(Kept(q1, skip), Kept(q2, skip));
    var w := UnequivocalIsAlways(Kept(q1, skip), n);
    KeptHasAll(q1, skip, n);
    KeptHasAll(q2, skip, n);
    LookupAlways(Parts(q1), n, w);
    LookupAlways(Parts(q2), n, w);
    assert Has(Pairs(q1), n) <==> Has(Pairs(q2), n);
  }

  // ---- Two spellings of the same pairs ----

  /** Everything escaped: read exactly as signed. */
  function TightPart(p: Pair): Str { PrintPair(EncodePair(p)) }

  function Tight(ps: seq<Pair>): Str { Join(Map(TightPart, ps), '&') }

  /** Pluses and semicolons left as they are. */
  function LooseText(v: Str): Str {
    if v == [] then []
    else (if v[0] == '+' || v[0] == ';' then [v[0]] else EncodeByte(v[0], true)) + LooseText(v[1..])
  }

  function LoosePart(p: Pair): Str { UriEncode(p.k, true) + "=" + LooseText(p.v) }

  function Loose(ps: seq<Pair>): Str { Join(Map(LoosePart, ps), '&') }

  /** What form decoding makes of the loose spelling. */
  function Spaced(v: Str): Str {
    if v == [] then [] else [if v[0] == '+' then ' ' else v[0]] + Spaced(v[1..])
  }

  /** The first value of a name. */
  function First(ps: seq<Pair>, n: Str): Option<Str> {
    if ps == [] then None else if ps[0].k == n then Some(ps[0].v) else First(ps[1..], n)
  }

  lemma TightPartReads(p: Pair)
    ensures var part := TightPart(p);
            && part != [] && '&' !in part && PartDecodable(part) && DecodePart(part) == p && FormPart(part)
            && QueryUnescape(Cut(part, '=').before) == Some(p.k) && QueryUnescape(Cut(part, '=').after) == Some(p.v)
  {
    hide Unescape, Cut, UriEncode;
    PrintedPart(p);
    PrintedPartDecodes(p);
    UnescapeEncode(p.k, true, true);
    UnescapeEncode(p.v, true, true);
    NoSemicolon(p);
  }

  lemma NoSemicolon(p: Pair)
    ensures ';' !in TightPart(p)
  {
  }

  lemma {:induction false} LooseDecodes(v: Str)
    ensures Unescape(LooseText(v), false) == Some(v) && Unescape(LooseText(v), true) == Some(Spaced(v))
    ensures ';' in LooseText(v) <==> ';' in v
    ensures '&' !in LooseText(v)
  {
    if v != [] {
      LooseDecodes(v[1..]);
      var rest := LooseText(v[1..]);
      assert v == [v[0]] + v[1..];
      if v[0] == '+' || v[0] == ';' {
        assert ([v[0]] + rest)[1..] == rest;
      } else {
        UnescapeStep(v[0], rest, false, true);
        UnescapeStep(v[0], rest, true, true);
      }
    }
  }

  lemma LoosePartReads(p: Pair)
    ensures var part := LoosePart(p);
            && part != [] && '&' !in part && PartDecodable(part) && DecodePart(part) == p
            && (FormPart(part) <==> ';' !in p.v)
            && QueryUnescape(Cut(part, '=').before) == Some(p.k)
            && QueryUnescape(Cut(part, '=').after) == Some(Spaced(p.v))
  {
    hide Unescape, Cut, LooseText, Spaced;
    var k, v := UriEncode(p.k, true), LooseText(p.v);
    assert LoosePart(p) == k + ['='] + v;
    CutAt(k, '=', v);
    UnescapeEncode(p.k, true, true);
    UnescapeEncode(p.k, false, true);
    LooseDecodes(p.v);
  }

  lemma TightQuery(ps: seq<Pair>)
    ensures Parts(Tight(ps)) == Map(TightPart, ps) && Decodable(Tight(ps)) && Pairs(Tight(ps)) == ps
  {
    hide TightPart, PartDecodable, DecodePart, Parts, FormPart, QueryUnescape;
    forall i | 0 <= i < |ps|
      ensures var part := TightPart(ps[i]);
              part != [] && '&' !in part && PartDecodable(part) && DecodePart(part) == ps[i]
    {
      TightPartReads(ps[i]);
    }
    PartsOfJoin(Map(TightPart, ps));
  }

  lemma LooseQuery(ps: seq<Pair>)
    ensures Parts(Loose(ps)) == Map(LoosePart, ps) && Decodable(Loose(ps)) && Pairs(Loose(ps)) == ps
  {
    hide LoosePart, PartDecodable, DecodePart, Parts, FormPart, QueryUnescape;
    forall i | 0 <= i < |ps|
      ensures var part := LoosePart(ps[i]);
              part != [] && '&' !in part && PartDecodable(part) && DecodePart(part) == ps[i]
    {
      LoosePartReads(ps[i]);
    }
    PartsOfJoin(Map(LoosePart, ps));
  }

  lemma {:induction false} TightLookup(ps: seq<Pair>, n: Str)
    ensures Lookup(Map(TightPart, ps), n) == First(ps, n)
  {
    hide TightPart, FormPart, QueryUnescape, Cut;
    if ps != [] {
      TightPartReads(ps[0]);
      TightLookup(ps[1..], n);
      assert Map(TightPart, ps)[1..] == Map(TightPart, ps[1..]);
    }
  }

  /** A fully escaped query is read in its own order, value for value. */
  lemma TightReads(ps: seq<Pair>, n: Str)
    ensures Lookup(Parts(Tight(ps)), n) == First(ps, n)
  {
    hide Tight, Parts, Lookup, Decodable;
    TightQuery(ps);
    TightLookup(ps, n);
  }

  lemma {:induction false} SpacedDiffers(v: Str)
    requires '+' in v
    ensures Spaced(v) != v
  {
    if v[0] != '+' {
      SpacedDiffers(v[1..]);
      assert Spaced(v)[1..] == Spaced(v[1..]);
    }
  }

  lemma {:induction false} LooseLookup(ps: seq<Pair>, n: Str, w: Str)
    requires !PlainValue(w) && forall p :: p in ps && p.k == n ==> p.v == w
    ensures Lookup(Map(LoosePart, ps), n) != Some(w)
  {
    hide LoosePart, FormPart, QueryUnescape, Cut, Spaced;
    if ps != [] {
      LoosePartReads(ps[0]);
      LooseLookup(ps[1..], n, w);
      assert Map(LoosePart, ps)[1..] == Map(LoosePart, ps[1..]);
      assert ps[0] in ps;
      if ps[0].k == n && ';' !in w {
        SpacedDiffers(w);
      }
    }
  }

  // ---- Exactly when ----

  /** Every query with the same canonical form reads the same value of the name. */
  ghost predicate ReadingFixed(raw: Str, skip: Str, n: Str) {
    forall other :: Decodable(other) && Canonical(other, skip) == Canonical(raw, skip) ==>
      Lookup(Parts(other), n) == Lookup(Parts(raw), n)
  }

  /** Another query made of the same signed pairs has the same canonical form. */
  lemma SameCanonical(raw: Str, skip: Str, other: Str)
    requires Decodable(raw) && Decodable(other) && multiset(Pairs(other)) == multiset(Kept(raw, skip))
    ensures Canonical(other, skip) == Canonical(raw, skip)
  {
    hide Canonical, Decodable, Pairs;
    SamePairs(Pairs(other), Kept(raw, skip));
    FilterAll(Keeps(skip), Pairs(other));
    CanonicalSoundAndComplete(raw, other, skip);
  }

  /** Moving a pair to the front makes it the one that is read. */
  lemma FrontIsRead(raw: Str, skip: Str, p: Pair) returns (other: Str)
    requires Decodable(raw) && p in Kept(raw, skip)
    ensures Decodable(other) && Canonical(other, skip) == Canonical(raw, skip)
    ensures Lookup(Parts(other), p.k) == Some(p.v)
  {
    hide Canonical, Decodable, Pairs, Parts, Lookup, Tight, Kept;
    var ps := Kept(raw, skip);
    var i :| 0 <= i < |ps| && ps[i] == p;
    var a, b := ps[..i], ps[i + 1..];
    assert ps == a + [p] + b;
    Middle(a, p, b);
    var moved := [p] + (a + b);
    assert multiset(moved) == multiset(ps);
    other := Tight(moved);
    TightQuery(moved);
    SameCanonical(raw, skip, other);
    TightReads(moved, p.k);
  }

  /** What is read is fixed by what is signed if and only if the signed pairs give the name one
      value at most, and that one without plus and semicolon. */
  lemma ReadingFixedExactlyWhen(raw: Str, skip: Str, n: Str)
    requires Decodable(raw) && PlainName(n) && n != skip
    ensures ReadingFixed(raw, skip, n) <==> Unequivocal(Kept(raw, skip), n)
  {
    hide Canonical, Decodable, Parts, Lookup, Kept, PlainName, PlainValue;
    if Unequivocal(Kept(raw, skip), n) {
      forall other | Decodable(other) && Canonical(other, skip) == Canonical(raw, skip)
        ensures Lookup(Parts(other), n) == Lookup(Parts(raw), n)
      {
        ReadsAsSigned(raw, other, skip, n);
      }
    } else if ReadingFixed(raw, skip, n) {
      var ps := Kept(raw, skip);
      var p, q :| p in ps && q in ps && p.k == n && q.k == n && !(p.v == q.v && PlainValue(p.v));
      var first := FrontIsRead(raw, skip, p);
      assert Lookup(Parts(raw), n) == Some(p.v);
      forall x | x in ps && x.k == n ensures x.v == p.v {
        var front := FrontIsRead(raw, skip, x);
      }
      LooseReads(raw, skip, n, p.v);
    }
  }

  /** If all values of the name are the same but not plain, the loose spelling reads another one. */
  lemma LooseReads(raw: Str, skip: Str, n: Str, w: Str)
    requires Decodable(raw) && !PlainValue(w) && forall p :: p in Kept(raw, skip) && p.k == n ==> p.v == w
    ensures exists other :: Decodable(other) && Canonical(other, skip) == Canonical(raw, skip)
                            && Lookup(Parts(other), n) != Some(w)
  {
    hide Canonical, Decodable, Parts, Lookup, Kept, PlainValue, Loose;
    var other := Loose(Kept(raw, skip));
    LooseQuery(Kept(raw, skip));
    SameCanonical(raw, skip, other);
    LooseLookup(Kept(raw, skip), n, w);
  }
}
