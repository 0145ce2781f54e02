/** Removing the (already verified) query-auth parameters before forwarding. */
module StripQuery {
  import opened Seqs
  import opened Strings
  import opened UriCoding
  import opened CanonicalQuery
  import Http
  import SigV4
  import Presign

  /** The seven query-auth parameter names. */
  predicate IsAuthParam(name: Str) {
    || name == Presign.Q_ALGORITHM || name == Presign.Q_CREDENTIAL || name == SigV4.AMZ_DATE
    || name == Presign.Q_EXPIRES || name == Presign.Q_SIGNED_HEADERS || name == Presign.Q_SIGNATURE
    || name == SigV4.SECURITY_TOKEN
  }

  /** A part is dropped when its key, decoded as a form key, is an auth parameter. */
  predicate Forwarded(part: Str) {
    var key := QueryUnescape(Cut(part, '=').before);
    key.None? || !IsAuthParam(key.value)
  }

  predicate Retained(part: Str) { part != [] && Forwarded(part) }

  function Strip(raw: Str): Str {
    Join(Filter(Retained, Split(raw, '&')), '&')
  }

  /** The loop's test for one part. */
  method Keep(part: Str) returns (keep: bool)
    ensures keep == Retained(part)
  {
    hide IsAuthParam, Cut, Unescape;
    if part == [] {
      return false;
    }
    var key := QueryUnescape(Cut(part, '=').before);
    if key.Some? && IsAuthParam(key.value) {
      return false;
    }
    return true;
  }

  /** The in-place filter `kept := parts[:0]`: kept parts move down over the ones already read. */
  method FilterInPlace(parts: array<Str>) returns (n: nat)
    modifies parts
    ensures n <= parts.Length
    ensures parts[..n] == Filter(Retained, old(parts[..]))
  {
    hide Retained, Filter;
    FilterNothing();
    n := 0;
    ghost var was := parts[..];
    for i := 0 to parts.Length
      invariant n <= i
      invariant parts[i..] == was[i..]
      invariant parts[..n] == Filter(Retained, was[..i])
    {
      var part := parts[i];
      assert part == was[i];
      FilterSnoc(Retained, was, i);
      var keep := Keep(part);
      if keep {
        parts[n] := part;
        n := n + 1;
      }
    }
    assert was[..|was|] == was;
  }

  lemma FilterNothing()
    ensures Filter(Retained, []) == []
  {
  }

  method StripPresignedQuery(r: Http.Request)
    modifies r
    ensures r.Value() == old(r.Value()).(rawQuery := Strip(old(r.rawQuery)))
  {
    if r.rawQuery == [] {
      assert Split([], '&') == [[]];
      assert Filter(Retained, [[]]) == [];
      return;
    }
    var list := Split(r.rawQuery, '&');
    var parts := new Str[|list|](i requires 0 <= i < |list| => list[i]);
    assert parts[..] == list;
    var n := FilterInPlace(parts);
    r.rawQuery := Join(parts[..n], '&');
  }

  // ---- What is left ----

  lemma {:induction false} RetainedIsForwarded(parts: seq<Str>)
    ensures Filter(Retained, parts) == Filter(Forwarded, Filter(NonEmpty, parts))
  {
    if parts != [] {
      hide Forwarded;
      RetainedIsForwarded(parts[1..]);
      if parts[0] != [] {
        assert ([parts[0]] + Filter(NonEmpty, parts[1..]))[1..] == Filter(NonEmpty, parts[1..]);
      }
    }
  }

  /** The non-empty parts that stay are kept byte for byte and in order. */
  lemma StripKeepsParts(raw: Str)
    ensures Parts(Strip(raw)) == Filter(Forwarded, Parts(raw))
  {
    hide Forwarded, Retained;
    var kept := Filter(Retained, Split(raw, '&'));
    assert forall p :: p in kept ==> p != [] && '&' !in p by {
      forall p | p in kept ensures p != [] && '&' !in p {
        RetainedMeans(p);
      }
    }
    PartsOfJoin(kept);
    RetainedIsForwarded(Split(raw, '&'));
  }

  lemma RetainedMeans(p: Str)
    ensures Retained(p) ==> p != []
  {
  }

  lemma LiteralFree(name: Str)
    requires forall i :: 0 <= i < |name| ==> 'A' <= name[i] <= 'Z' || 'a' <= name[i] <= 'z' || name[i] == '-'
    ensures '+' !in name && ' ' !in name
  {
  }

  /** No auth parameter name holds the bytes on which the two decoders differ. */
  lemma AuthParamsPlain(name: Str)
    requires IsAuthParam(name)
    ensures '+' !in name && ' ' !in name
  {
    if name == Presign.Q_ALGORITHM { LiteralFree(Presign.Q_ALGORITHM); }
    else if name == Presign.Q_CREDENTIAL { LiteralFree(Presign.Q_CREDENTIAL); }
    else if name == SigV4.AMZ_DATE { LiteralFree(SigV4.AMZ_DATE); }
    else if name == Presign.Q_EXPIRES { LiteralFree(Presign.Q_EXPIRES); }
    else if name == Presign.Q_SIGNED_HEADERS { LiteralFree(Presign.Q_SIGNED_HEADERS); }
    else if name == Presign.Q_SIGNATURE { LiteralFree(Presign.Q_SIGNATURE); }
    else { LiteralFree(SigV4.SECURITY_TOKEN); }
  }

  /** The stripper's form decoding and the verifier's path decoding recognise the same auth keys. */
  lemma SameAuthKeys(key: Str)
    ensures (QueryUnescape(key).Some? && IsAuthParam(QueryUnescape(key).value))
       <==> (PathUnescape(key).Some? && IsAuthParam(PathUnescape(key).value))
  {
    hide IsAuthParam, Unescape;
    if QueryUnescape(key).Some? && IsAuthParam(QueryUnescape(key).value) {
      AuthParamsPlain(QueryUnescape(key).value);
      UnescapersAgree(key, QueryUnescape(key).value);
    }
    if PathUnescape(key).Some? && IsAuthParam(PathUnescape(key).value) {
      AuthParamsPlain(PathUnescape(key).value);
      UnescapersAgree(key, PathUnescape(key).value);
    }
  }

  /** No part that stays decodes to an auth parameter, under either decoder. */
  lemma StripLeavesNoAuthParam(raw: Str, part: Str)
    requires part in Parts(Strip(raw))
    ensures var key := Cut(part, '=').before;
            && (PathUnescape(key).Some? ==> !IsAuthParam(PathUnescape(key).value))
            && (QueryUnescape(key).Some? ==> !IsAuthParam(QueryUnescape(key).value))
  {
    hide IsAuthParam, PathUnescape, QueryUnescape, Cut, Strip, Parts;
    StripKeepsParts(raw);
    SameAuthKeys(Cut(part, '=').before);
  }

  predicate OtherPair(p: Pair) { !IsAuthParam(p.k) }

  lemma {:induction false} OtherPairsOf(parts: seq<Str>)
    requires forall p :: p in parts ==> PartDecodable(p)
    ensures Map(DecodePart, Filter(Forwarded, parts)) == Filter(OtherPair, Map(DecodePart, parts))
  {
    if parts != [] {
      hide IsAuthParam, PathUnescape, QueryUnescape, Cut;
      OtherPairsOf(parts[1..]);
      SameAuthKeys(Cut(parts[0], '=').before);
      var d := DecodePart(parts[0]);
      assert Forwarded(parts[0]) <==> OtherPair(d);
      assert ([d] + Map(DecodePart, parts[1..]))[1..] == Map(DecodePart, parts[1..]);
      assert ([parts[0]] + Filter(Forwarded, parts[1..]))[1..] == Filter(Forwarded, parts[1..]);
    }
  }

  /** What was verified is what is forwarded: every other decoded pair survives, in order. */
  lemma StripKeepsPairs(raw: Str)
    requires Decodable(raw)
    ensures Decodable(Strip(raw))
    ensures Pairs(Strip(raw)) == Filter(OtherPair, Pairs(raw))
  {
    hide Forwarded, Strip, PartDecodable, DecodePart, OtherPair;
    StripKeepsParts(raw);
    OtherPairsOf(Parts(raw));
  }

  lemma {:induction false} FilterTwice(ps: seq<Pair>, skip: Str)
    requires skip != [] && IsAuthParam(skip)
    ensures Filter(OtherPair, Filter(Keeps(skip), ps)) == Filter(OtherPair, ps)
  {
    if ps != [] {
      hide IsAuthParam;
      FilterTwice(ps[1..], skip);
      if Keeps(skip)(ps[0]) {
        assert ([ps[0]] + Filter(Keeps(skip), ps[1..]))[1..] == Filter(Keeps(skip), ps[1..]);
      }
    }
  }

  /** The canonical query of the forwarded request is that of the verified one without its auth
      parameters. */
  lemma ForwardedQueryIsVerifiedQuery(raw: Str)
    requires Decodable(raw)
    ensures Canonical(Strip(raw), []) == Some(Render(Filter(OtherPair, Kept(raw, Presign.Q_SIGNATURE))))
  {
    hide Render, OtherPair, Strip, Decodable, Pairs;
    StripKeepsPairs(raw);
    SkipsSignature(Pairs(raw));
    FilterAll(Keeps([]), Pairs(Strip(raw)));
  }

  lemma SkipsSignature(ps: seq<Pair>)
    ensures Filter(OtherPair, Filter(Keeps(Presign.Q_SIGNATURE), ps)) == Filter(OtherPair, ps)
  {
    FilterTwice(ps, Presign.Q_SIGNATURE);
  }

  /** The seven names, spelled out. */
  predicate AuthName(k: Str) {
    || k == "X-Amz-Algorithm" || k == "X-Amz-Credential" || k == "X-Amz-Date" || k == "X-Amz-Expires"
    || k == "X-Amz-SignedHeaders" || k == "X-Amz-Signature" || k == "X-Amz-Security-Token"
  }

  lemma AuthNames(k: Str)
    ensures IsAuthParam(k) <==> AuthName(k)
  {
  }

  /** A decoded pair, or a part, that is none of the seven. */
  function Foreign(): Pair -> bool { (p: Pair) => !AuthName(p.k) }

  predicate IsForeign(part: Str) {
    var path, form := PathUnescape(Cut(part, '=').before), QueryUnescape(Cut(part, '=').before);
    !(path.Some? && AuthName(path.value)) && !(form.Some? && AuthName(form.value))
  }

  function ForeignPart(): Str -> bool { (part: Str) => IsForeign(part) }

  lemma {:induction false} FilterSame<T>(p: T -> bool, q: T -> bool, xs: seq<T>)
    requires forall x :: x in xs ==> p(x) == q(x)
    ensures Filter(p, xs) == Filter(q, xs)
  {
    if xs != [] {
      FilterSame(p, q, xs[1..]);
    }
  }

  lemma PartIsForeign(part: Str)
    ensures Forwarded(part) == IsForeign(part)
  {
    hide IsAuthParam, AuthName, PathUnescape, QueryUnescape, Cut;
    var key := Cut(part, '=').before;
    SameAuthKeys(key);
    if QueryUnescape(key).Some? { AuthNames(QueryUnescape(key).value); }
    if PathUnescape(key).Some? { AuthNames(PathUnescape(key).value); }
  }

  lemma PairIsForeign(p: Pair)
    ensures OtherPair(p) == Foreign()(p)
  {
    hide IsAuthParam, AuthName;
    AuthNames(p.k);
  }

  /** What is sent of a query: the parts that are none of the seven under either decoder, byte for byte
      and in order, so also their decoded pairs. */
  ghost predicate SentOf(raw: Str, sent: Str) {
    && Parts(sent) == Filter(ForeignPart(), Parts(raw))
    && Decodable(raw) && Decodable(sent) && Pairs(sent) == Filter(Foreign(), Pairs(raw))
  }

  lemma StripSends(raw: Str)
    requires Decodable(raw)
    ensures SentOf(raw, Strip(raw))
  {
    hide Decodable, Strip, Parts, Pairs, Foreign, IsForeign, Forwarded, OtherPair;
    StripKeepsParts(raw);
    StripKeepsPairs(raw);
    forall part | part in Parts(raw) ensures Forwarded(part) == ForeignPart()(part) {
      PartIsForeign(part);
    }
    forall p | p in Pairs(raw) ensures OtherPair(p) == Foreign()(p) {
      PairIsForeign(p);
    }
    FilterSame(Forwarded, ForeignPart(), Parts(raw));
    FilterSame(OtherPair, Foreign(), Pairs(raw));
  }
}
