/** What a signature commits to. Hash functions are not injective, so the statement is explicit:
    two signed requests with the same signature agree on everything that was signed, or the two
    computations exhibit a collision at one of six named places. */
module Binding {
  import opened Seqs
  import opened Strings
  import opened Primitives
  import opened Http
  import opened Authorization
  import opened SigV4
  import opened Presign
  import CanonicalQuery
  import CanonicalRequest

  /** One signing: when, by whom, over what. */
  datatype Signing = Signing(amzDate: Str, p: Party, canonical: Str)

  function DateKey(env: Env, s: Signing): Str
    requires |s.amzDate| >= 8
  { env.hmac(KEY_PREFIX + s.p.secret, s.amzDate[..8]) }

  function RegionKey(env: Env, s: Signing): Str
    requires |s.amzDate| >= 8
  { env.hmac(DateKey(env, s), s.p.region) }

  function ServiceKey(env: Env, s: Signing): Str
    requires |s.amzDate| >= 8
  { env.hmac(RegionKey(env, s), s.p.service) }

  function SigningKey(env: Env, s: Signing): Str
    requires |s.amzDate| >= 8
  { env.hmac(ServiceKey(env, s), REQUEST_TYPE) }

  function Message(env: Env, s: Signing): Str
    requires |s.amzDate| >= 8
  { StringToSign(env, s.amzDate, s.amzDate[..8], s.p.region, s.p.service, s.canonical) }

  ghost predicate HmacCollision(env: Env, k1: Str, m1: Str, k2: Str, m2: Str) {
    (k1 != k2 || m1 != m2) && env.hmac(k1, m1) == env.hmac(k2, m2)
  }

  /** A collision between the two computations: in the hash of the canonical request, in the final
      MAC, or in one of the four key-derivation steps. */
  ghost predicate Collision(env: Env, s1: Signing, s2: Signing)
    requires |s1.amzDate| >= 8 && |s2.amzDate| >= 8
  {
    || (s1.canonical != s2.canonical && env.sha256(s1.canonical) == env.sha256(s2.canonical))
    || HmacCollision(env, SigningKey(env, s1), Message(env, s1), SigningKey(env, s2), Message(env, s2))
    || HmacCollision(env, ServiceKey(env, s1), REQUEST_TYPE, ServiceKey(env, s2), REQUEST_TYPE)
    || HmacCollision(env, RegionKey(env, s1), s1.p.service, RegionKey(env, s2), s2.p.service)
    || HmacCollision(env, DateKey(env, s1), s1.p.region, DateKey(env, s2), s2.p.region)
    || HmacCollision(env, KEY_PREFIX + s1.p.secret, s1.amzDate[..8], KEY_PREFIX + s2.p.secret, s2.amzDate[..8])
  }

  /** Dates and scope fields that keep the string to sign unambiguous. */
  predicate PlainScope(s: Signing) {
    && |s.amzDate| >= 8
    && '\n' !in s.amzDate && '\n' !in s.p.region && '\n' !in s.p.service
    && '/' !in s.amzDate && '/' !in s.p.region && '/' !in s.p.service
  }

  lemma {:induction false} HexInjective(a: Str, b: Str)
    requires |a| == |b| && Hex(a) == Hex(b)
    ensures a == b
  {
    if a != [] {
      assert Hex(a)[0] == Hex(b)[0] && Hex(a)[1] == Hex(b)[1];
      assert Hex(a)[2..] == Hex(a[1..]) && Hex(b)[2..] == Hex(b[1..]);
      HexInjective(a[1..], b[1..]);
      DigitInjective(a[0] as int / 16, b[0] as int / 16);
      DigitInjective(a[0] as int % 16, b[0] as int % 16);
      assert a == [a[0]] + a[1..] && b == [b[0]] + b[1..];
    }
  }

  lemma DigitInjective(m: nat, n: nat)
    requires m < 16 && n < 16
    ensures HexDigit(m) == HexDigit(n) ==> m == n
  {
  }

  function ScopeFields(s: Signing): seq<Str>
    requires |s.amzDate| >= 8
  { [s.amzDate[..8], s.p.region, s.p.service, REQUEST_TYPE] }

  lemma ScopeSplits(s: Signing)
    requires PlainScope(s)
    ensures Split(Join(ScopeFields(s), '/'), '/') == ScopeFields(s) && '\n' !in Join(ScopeFields(s), '/')
  {
    assert '/' !in REQUEST_TYPE && '\n' !in REQUEST_TYPE;
    SplitJoin(ScopeFields(s), '/');
    JoinFree(ScopeFields(s), '/', '\n');
  }

  lemma MessageSplits(env: Env, s: Signing)
    requires PlainScope(s)
    ensures Split(Message(env, s), '\n') ==
            [ALGORITHM, s.amzDate, Join(ScopeFields(s), '/'), Hex(env.sha256(s.canonical))]
  {
    hide Hex, Split;
    ScopeSplits(s);
    AlgorithmIsOneLine();
    HexIsOneLine(env.sha256(s.canonical));
    SplitJoin([ALGORITHM, s.amzDate, Join(ScopeFields(s), '/'), Hex(env.sha256(s.canonical))], '\n');
  }

  lemma AlgorithmIsOneLine()
    ensures '\n' !in ALGORITHM
  {
    assert |ALGORITHM| == 16;
  }

  lemma HexIsOneLine(s: Str)
    ensures '\n' !in Hex(s)
  {
  }

  /** Equal strings to sign: same instant, same scope, and the same canonical request unless
      SHA-256 collides on the two. */
  lemma MessageBinds(env: Env, s1: Signing, s2: Signing)
    requires PlainScope(s1) && PlainScope(s2) && Message(env, s1) == Message(env, s2)
    ensures s1.amzDate == s2.amzDate && s1.p.region == s2.p.region && s1.p.service == s2.p.service
    ensures s1.canonical == s2.canonical || env.sha256(s1.canonical) == env.sha256(s2.canonical)
  {
    hide Message, Hex, Split;
    MessageSplits(env, s1);
    MessageSplits(env, s2);
    var l1 := [ALGORITHM, s1.amzDate, Join(ScopeFields(s1), '/'), Hex(env.sha256(s1.canonical))];
    var l2 := [ALGORITHM, s2.amzDate, Join(ScopeFields(s2), '/'), Hex(env.sha256(s2.canonical))];
    assert l1[1] == l2[1] && l1[2] == l2[2] && l1[3] == l2[3];
    ScopeSplits(s1);
    ScopeSplits(s2);
    assert ScopeFields(s1)[1] == ScopeFields(s2)[1] && ScopeFields(s1)[2] == ScopeFields(s2)[2];
    HexInjective(env.sha256(s1.canonical), env.sha256(s2.canonical));
  }

  lemma SecretBinds(a: Str, b: Str)
    requires KEY_PREFIX + a == KEY_PREFIX + b
    ensures a == b
  {
    assert (KEY_PREFIX + a)[|KEY_PREFIX|..] == a && (KEY_PREFIX + b)[|KEY_PREFIX|..] == b;
  }

  /** The signing key commits to the secret. */
  lemma KeyBinds(env: Env, s1: Signing, s2: Signing)
    requires |s1.amzDate| >= 8 && |s2.amzDate| >= 8
    requires SigningKey(env, s1) == SigningKey(env, s2) && !Collision(env, s1, s2)
    ensures s1.p.secret == s2.p.secret
  {
    hide Message;
    assert ServiceKey(env, s1) == ServiceKey(env, s2);
    assert RegionKey(env, s1) == RegionKey(env, s2);
    assert DateKey(env, s1) == DateKey(env, s2);
    SecretBinds(s1.p.secret, s2.p.secret);
  }

  lemma SignatureIsMac(env: Env, s: Signing)
    requires |s.amzDate| >= 8
    ensures SignatureOf(env, s.amzDate, s.p, s.canonical) == Hex(env.hmac(SigningKey(env, s), Message(env, s)))
  {
    hide Hex, StringToSign;
  }

  /** Equal signatures come from the same secret, instant, scope and canonical request, or from a
      collision. */
  lemma SignatureBinds(env: Env, s1: Signing, s2: Signing)
    requires PlainScope(s1) && PlainScope(s2)
    requires SignatureOf(env, s1.amzDate, s1.p, s1.canonical) == SignatureOf(env, s2.amzDate, s2.p, s2.canonical)
    ensures s1 == s2 || Collision(env, s1, s2)
  {
    hide Hex, SignatureOf, Message, SigningKey;
    SignatureIsMac(env, s1);
    SignatureIsMac(env, s2);
    HexInjective(env.hmac(SigningKey(env, s1), Message(env, s1)), env.hmac(SigningKey(env, s2), Message(env, s2)));
    if !Collision(env, s1, s2) {
      assert SigningKey(env, s1) == SigningKey(env, s2) && Message(env, s1) == Message(env, s2);
      MessageBinds(env, s1, s2);
      KeyBinds(env, s1, s2);
    }
  }

  // ---- Accepted requests ----

  /** The signing that a verifier recomputes for a request. */
  ghost function Recomputed(env: Env, r: Req, a: Auth, p: Party): Signing
    requires CanonicalQuery.Decodable(r.rawQuery)
  {
    Signing(Get(r.header, AMZ_DATE), p,
            CanonicalRequest.Build(r, a.signed, [], PayloadHash(r.header, EmptyBody(env))).value)
  }

  lemma AcceptedSignature(env: Env, r: Req, a: Auth, p: Party, now: int, skew: int)
    requires Verify(env, r, a, p, now, skew).Ok?
    ensures CanonicalQuery.Decodable(r.rawQuery) && |Get(r.header, AMZ_DATE)| >= 8
    ensures var s := Recomputed(env, r, a, p); a.signature == SignatureOf(env, s.amzDate, s.p, s.canonical)
  {
    hide Verify, SignatureOf, CanonicalRequest.Text, CanonicalQuery.Render, CanonicalQuery.Kept, Get, EmptyBody,
      FreshDate;
    AcceptedExactlyWhen(env, r, a, p, now, skew);
  }

  /** Two request lines in origin form have the same path bytes before the question mark. */
  ghost predicate SamePath(r1: Req, r2: Req) {
    forall p, q :: CanonicalRequest.WirePath(r1, p) && CanonicalRequest.WirePath(r2, q) && p != [] && q != [] ==> p == q
  }

  lemma SameUriSamePath(r1: Req, r2: Req)
    requires CanonicalRequest.CanonicalURI(r1) == CanonicalRequest.CanonicalURI(r2)
    ensures SamePath(r1, r2)
  {
    hide CanonicalRequest.WirePath, CanonicalRequest.CanonicalURI;
    forall p, q | CanonicalRequest.WirePath(r1, p) && CanonicalRequest.WirePath(r2, q) && p != [] && q != []
      ensures p == q
    {
      CanonicalRequest.PathIsWirePath(r1, p);
      CanonicalRequest.PathIsWirePath(r2, q);
    }
  }

  /** Every pair but a signature occurs equally often in both queries. */
  ghost predicate SamePairs(r1: Req, r2: Req) {
    forall p: CanonicalQuery.Pair :: p.k != "X-Amz-Signature" ==>
      multiset(CanonicalQuery.Pairs(r1.rawQuery))[p] == multiset(CanonicalQuery.Pairs(r2.rawQuery))[p]
  }

  lemma {:induction false} KeptCount(ps: seq<CanonicalQuery.Pair>, skip: Str, p: CanonicalQuery.Pair)
    requires p.k != skip
    ensures multiset(Filter(CanonicalQuery.Keeps(skip), ps))[p] == multiset(ps)[p]
  {
    if ps != [] {
      KeptCount(ps[1..], skip, p);
      FilterHead(CanonicalQuery.Keeps(skip), ps);
      assert ps == [ps[0]] + ps[1..];
    }
  }

  lemma SameKeptSamePairs(r1: Req, r2: Req)
    requires multiset(CanonicalQuery.Kept(r1.rawQuery, Q_SIGNATURE)) ==
             multiset(CanonicalQuery.Kept(r2.rawQuery, Q_SIGNATURE))
    ensures SamePairs(r1, r2)
  {
    hide CanonicalQuery.Pairs, CanonicalQuery.Keeps;
    forall p: CanonicalQuery.Pair | p.k != "X-Amz-Signature"
      ensures multiset(CanonicalQuery.Pairs(r1.rawQuery))[p] == multiset(CanonicalQuery.Pairs(r2.rawQuery))[p]
    {
      KeptCount(CanonicalQuery.Pairs(r1.rawQuery), Q_SIGNATURE, p);
      KeptCount(CanonicalQuery.Pairs(r2.rawQuery), Q_SIGNATURE, p);
    }
  }

  /** Two accepted requests that present the same signature were signed with the same secret for
      the same instant and agree on verb, URI, query pairs, signed list, header values and payload
      hash, unless the two computations collide. */
  lemma SameSignatureSameRequest(env: Env, r1: Req, a1: Auth, p1: Party, t1: int,
                                 r2: Req, a2: Auth, p2: Party, t2: int, skew: int)
    requires Verify(env, r1, a1, p1, t1, skew).Ok? && Verify(env, r2, a2, p2, t2, skew).Ok?
    requires a1.signature == a2.signature
    requires CanonicalRequest.OneLineFields(r1, a1.signed, PayloadHash(r1.header, EmptyBody(env)))
    requires CanonicalRequest.OneLineFields(r2, a2.signed, PayloadHash(r2.header, EmptyBody(env)))
    requires CanonicalQuery.Decodable(r1.rawQuery) && PlainScope(Recomputed(env, r1, a1, p1))
    requires CanonicalQuery.Decodable(r2.rawQuery) && PlainScope(Recomputed(env, r2, a2, p2))
    ensures || Collision(env, Recomputed(env, r1, a1, p1), Recomputed(env, r2, a2, p2))
            || (&& p1 == p2 && Get(r1.header, AMZ_DATE) == Get(r2.header, AMZ_DATE)
                && r1.verb == r2.verb && CanonicalRequest.CanonicalURI(r1) == CanonicalRequest.CanonicalURI(r2)
                && SamePath(r1, r2)
                && multiset(CanonicalQuery.Pairs(r1.rawQuery)) == multiset(CanonicalQuery.Pairs(r2.rawQuery))
                && a1.signed == a2.signed
                && PayloadHash(r1.header, EmptyBody(env)) == PayloadHash(r2.header, EmptyBody(env))
                && (forall n :: n in a1.signed ==>
                      CanonicalRequest.HeaderValue(r1, n) == CanonicalRequest.HeaderValue(r2, n)))
  {
    hide Verify, SignatureOf, CanonicalRequest.Text, CanonicalRequest.OneLineFields, Collision, PlainScope,
      PayloadHash, CanonicalQuery.Canonical, CanonicalRequest.CanonicalURI, CanonicalRequest.HeaderValue, Get,
      EmptyBody, CanonicalQuery.Decodable;
    AcceptedSignature(env, r1, a1, p1, t1, skew);
    AcceptedSignature(env, r2, a2, p2, t2, skew);
    SignatureBinds(env, Recomputed(env, r1, a1, p1), Recomputed(env, r2, a2, p2));
    if !Collision(env, Recomputed(env, r1, a1, p1), Recomputed(env, r2, a2, p2)) {
      DecodableBuilds(r1, a1.signed, PayloadHash(r1.header, EmptyBody(env)));
      DecodableBuilds(r2, a2.signed, PayloadHash(r2.header, EmptyBody(env)));
      CanonicalRequest.Unambiguous(r1, a1.signed, PayloadHash(r1.header, EmptyBody(env)),
                                   r2, a2.signed, PayloadHash(r2.header, EmptyBody(env)), []);
      NoneSkipped(r1.rawQuery);
      NoneSkipped(r2.rawQuery);
      SameUriSamePath(r1, r2);
    }
  }

  lemma DecodableBuilds(r: Req, signed: seq<Str>, payloadHash: Str)
    requires CanonicalQuery.Decodable(r.rawQuery)
    ensures CanonicalRequest.Build(r, signed, [], payloadHash).Some?
  {
    hide CanonicalRequest.Text, CanonicalQuery.Render;
  }

  lemma NoneSkipped(raw: Str)
    ensures CanonicalQuery.Kept(raw, []) == CanonicalQuery.Pairs(raw)
  {
    hide CanonicalQuery.Pairs;
    FilterAll(CanonicalQuery.Keeps([]), CanonicalQuery.Pairs(raw));
  }

  // ---- Accepted URLs ----

  /** The signing that the verifier recomputes for a presigned URL. */
  ghost function RecomputedUrl(env: Env, r: Req, pre: Presigned, p: Party): Signing
    requires CanonicalQuery.Decodable(r.rawQuery)
  {
    Signing(pre.amzDate, p, CanonicalRequest.Build(r, pre.auth.signed, Q_SIGNATURE, UNSIGNED_PAYLOAD).value)
  }

  lemma AcceptedUrlSignature(env: Env, r: Req, pre: Presigned, p: Party, now: int, skew: int)
    requires VerifyPresigned(env, r, pre, p, now, skew).Ok?
    ensures CanonicalQuery.Decodable(r.rawQuery) && |pre.amzDate| >= 8
    ensures var s := RecomputedUrl(env, r, pre, p); pre.auth.signature == SignatureOf(env, s.amzDate, s.p, s.canonical)
    ensures pre.auth.date == pre.amzDate[..8] && pre.auth.region == p.region && pre.auth.service == p.service
  {
    hide VerifyPresigned, SignatureOf, CanonicalRequest.Text, CanonicalQuery.Render, CanonicalQuery.Kept, InWindow;
    AcceptedUrlExactlyWhen(env, r, pre, p, now, skew);
  }

  /** Two accepted URLs with the same signature were signed with the same secret for the same instant
      and agree on verb, URI, the query pairs other than the signature, signed list and header
      values, unless the two computations collide. */
  lemma SameSignatureSameUrl(env: Env, r1: Req, pre1: Presigned, p1: Party, t1: int,
                             r2: Req, pre2: Presigned, p2: Party, t2: int, skew: int)
    requires VerifyPresigned(env, r1, pre1, p1, t1, skew).Ok? && VerifyPresigned(env, r2, pre2, p2, t2, skew).Ok?
    requires pre1.auth.signature == pre2.auth.signature
    requires CanonicalRequest.OneLineFields(r1, pre1.auth.signed, UNSIGNED_PAYLOAD)
    requires CanonicalRequest.OneLineFields(r2, pre2.auth.signed, UNSIGNED_PAYLOAD)
    requires CanonicalQuery.Decodable(r1.rawQuery) && PlainScope(RecomputedUrl(env, r1, pre1, p1))
    requires CanonicalQuery.Decodable(r2.rawQuery) && PlainScope(RecomputedUrl(env, r2, pre2, p2))
    ensures || Collision(env, RecomputedUrl(env, r1, pre1, p1), RecomputedUrl(env, r2, pre2, p2))
            || (&& p1 == p2 && pre1.amzDate == pre2.amzDate
                && r1.verb == r2.verb && CanonicalRequest.CanonicalURI(r1) == CanonicalRequest.CanonicalURI(r2)
                && SamePath(r1, r2) && SamePairs(r1, r2)
                && CanonicalQuery.Canonical(r1.rawQuery, Q_SIGNATURE)
                   == CanonicalQuery.Canonical(r2.rawQuery, Q_SIGNATURE)
                && multiset(CanonicalQuery.Kept(r1.rawQuery, Q_SIGNATURE))
                   == multiset(CanonicalQuery.Kept(r2.rawQuery, Q_SIGNATURE))
                && pre1.auth.signed == pre2.auth.signed
                && (forall n :: n in pre1.auth.signed ==>
                      CanonicalRequest.HeaderValue(r1, n) == CanonicalRequest.HeaderValue(r2, n)))
  {
    hide VerifyPresigned, SignatureOf, CanonicalRequest.Text, CanonicalRequest.OneLineFields, Collision, PlainScope,
      CanonicalQuery.Canonical, CanonicalQuery.Kept, CanonicalRequest.CanonicalURI, CanonicalRequest.HeaderValue,
      CanonicalQuery.Decodable;
    AcceptedUrlSignature(env, r1, pre1, p1, t1, skew);
    AcceptedUrlSignature(env, r2, pre2, p2, t2, skew);
    var s1, s2 := RecomputedUrl(env, r1, pre1, p1), RecomputedUrl(env, r2, pre2, p2);
    SignatureBinds(env, s1, s2);
    if !Collision(env, s1, s2) {
      UrlBuilds(r1, pre1.auth.signed);
      UrlBuilds(r2, pre2.auth.signed);
      CanonicalRequest.Unambiguous(r1, pre1.auth.signed, UNSIGNED_PAYLOAD,
                                   r2, pre2.auth.signed, UNSIGNED_PAYLOAD, Q_SIGNATURE);
      SameUriSamePath(r1, r2);
      SameKeptSamePairs(r1, r2);
    }
  }

  lemma UrlBuilds(r: Req, signed: seq<Str>)
    requires CanonicalQuery.Decodable(r.rawQuery)
    ensures CanonicalRequest.Build(r, signed, Q_SIGNATURE, UNSIGNED_PAYLOAD).Some?
  {
    hide CanonicalRequest.Text, CanonicalQuery.Render;
  }
}
