/** Presigned URLs as clients make them, and what one signature fixes of a URL. */
module PresignUrl {
  import opened Seqs
  import opened Strings
  import opened Primitives
  import opened Http
  import opened Authorization
  import opened SigV4
  import opened Presign
  import opened Binding
  import opened QueryReading
  import CanonicalQuery
  import CanonicalRequest

  type Pair = CanonicalQuery.Pair

  // ---- Making a URL ----

  /** The parameters a client signs; the lifetime is printed in seconds. */
  function Params(pre: Presigned): seq<Pair>
    requires pre.expires >= 0
  {
    [CanonicalQuery.Pair(Q_ALGORITHM, ALGORITHM), CanonicalQuery.Pair(Q_CREDENTIAL, ScopeText(pre.auth)),
     CanonicalQuery.Pair(AMZ_DATE, pre.amzDate), CanonicalQuery.Pair(Q_EXPIRES, FormatNat(pre.expires / SECOND)),
     CanonicalQuery.Pair(Q_SIGNED_HEADERS, Join(pre.auth.signed, ';')), CanonicalQuery.Pair(SECURITY_TOKEN, pre.token)]
  }

  /** The query of a URL: the signature, the signed parameters, then any others. */
  function UrlQuery(pre: Presigned, others: seq<Pair>): Str
    requires pre.expires >= 0
  {
    Tight([CanonicalQuery.Pair(Q_SIGNATURE, pre.auth.signature)] + (Params(pre) + others))
  }

  /** What a client may put into a URL. */
  predicate UrlOk(pre: Presigned) {
    && WellFormed(pre.auth) && |pre.amzDate| == DATE_LENGTH
    && 0 < pre.expires <= MAX_EXPIRES * SECOND && pre.expires % SECOND == 0
  }

  function Names(): seq<Str> {
    [Q_SIGNATURE, Q_ALGORITHM, Q_CREDENTIAL, AMZ_DATE, Q_EXPIRES, Q_SIGNED_HEADERS, SECURITY_TOKEN]
  }

  lemma ParamNames()
    ensures forall i, j :: 0 <= i < j < 7 ==> Names()[i] != Names()[j]
  {
    assert Q_ALGORITHM[6] == 'A' && Q_CREDENTIAL[6] == 'C' && AMZ_DATE[6] == 'D' && Q_EXPIRES[6] == 'E';
    assert Q_SIGNATURE[6] == 'S' && Q_SIGNED_HEADERS[6] == 'S' && SECURITY_TOKEN[6] == 'S';
    assert SECURITY_TOKEN[7] == 'e' && Q_SIGNATURE[7] == 'i' && Q_SIGNED_HEADERS[7] == 'i';
    assert Q_SIGNATURE[10] == 'a' && Q_SIGNED_HEADERS[10] == 'e';
  }

  lemma {:induction false} FirstAt(ps: seq<Pair>, i: nat)
    requires i < |ps| && forall j :: 0 <= j < i ==> ps[j].k != ps[i].k
    ensures First(ps, ps[i].k) == Some(ps[i].v)
    decreases i
  {
    if i > 0 {
      FirstAt(ps[1..], i - 1);
    }
  }

  /** Each parameter of the URL is read as it was put in, whatever else the query holds. */
  lemma UrlReads(pre: Presigned, others: seq<Pair>, i: nat)
    requires pre.expires >= 0 && i < 7
    ensures var ps := [CanonicalQuery.Pair(Q_SIGNATURE, pre.auth.signature)] + (Params(pre) + others);
            QueryGet(UrlQuery(pre, others), ps[i].k) == ps[i].v && QueryHas(UrlQuery(pre, others), ps[i].k)
  {
    hide Tight, CanonicalQuery.Parts, Lookup, ScopeText, FormatNat, Join, First;
    ParamNames();
    var ps := [CanonicalQuery.Pair(Q_SIGNATURE, pre.auth.signature)] + (Params(pre) + others);
    assert forall j :: 0 <= j < 7 ==> ps[j].k == Names()[j];
    FirstAt(ps, i);
    TightReads(ps, ps[i].k);
  }

  lemma UrlFields(pre: Presigned, others: seq<Pair>)
    requires pre.expires >= 0
    ensures var raw := UrlQuery(pre, others);
            && QueryGet(raw, Q_ALGORITHM) == ALGORITHM && QueryGet(raw, Q_CREDENTIAL) == ScopeText(pre.auth)
            && QueryGet(raw, AMZ_DATE) == pre.amzDate && QueryGet(raw, Q_EXPIRES) == FormatNat(pre.expires / SECOND)
            && QueryGet(raw, Q_SIGNED_HEADERS) == Join(pre.auth.signed, ';')
            && QueryGet(raw, SECURITY_TOKEN) == pre.token
            && QueryGet(raw, Q_SIGNATURE) == pre.auth.signature && IsPresigned(raw)
  {
    hide UrlQuery, QueryGet, QueryHas, ScopeText, FormatNat, Join;
    UrlReads(pre, others, 0);
    UrlReads(pre, others, 1);
    UrlReads(pre, others, 2);
    UrlReads(pre, others, 3);
    UrlReads(pre, others, 4);
    UrlReads(pre, others, 5);
    UrlReads(pre, others, 6);
  }

  lemma HeaderFieldsRead(a: Auth)
    requires WellFormed(a)
    ensures CredentialOk(ScopeText(a))
    ensures Split(ScopeText(a), '/') == [a.akid, a.date, a.region, a.service, REQUEST_TYPE]
    ensures NameList(Join(a.signed, ';')) == a.signed && [] !in a.signed && CleanName(a.signature) == a.signature
  {
    hide NameList, ScopeText, CleanName, KindOf, IsLowerHex, FieldOk;
    CredentialRoundTrip(a);
    SignedRoundTrip(a);
    SignatureRoundTrip(a);
    NamesNotEmpty(a.signed);
  }

  lemma NamesNotEmpty(names: seq<Str>)
    requires forall n :: n in names ==> NameOk(n)
    ensures [] !in names
  {
  }

  /** Printing a URL and parsing it gives the same fields back, whatever other parameters follow,
      repetitions of the auth parameters included. */
  lemma UrlParses(pre: Presigned, others: seq<Pair>)
    requires UrlOk(pre)
    ensures ParsePresigned(UrlQuery(pre, others)) == Ok(pre)
  {
    hide UrlQuery, QueryGet, ScopeText, NameList, CleanName, FormatNat, Atoi, Join, IsPresigned, WellFormed, Split;
    UrlFields(pre, others);
    HeaderFieldsRead(pre.auth);
    assert IsLowerHex(pre.auth.signature) by { SignatureIsHex(pre.auth); }
    AtoiFormat(pre.expires / SECOND);
  }

  lemma SignatureIsHex(a: Auth)
    requires WellFormed(a)
    ensures IsLowerHex(a.signature)
  {
  }

  // ---- Signing a URL ----

  /** The request a client makes of `r` by presigning: any signature, then the one over it. */
  function UrlRequest(r: Req, pre: Presigned, others: seq<Pair>): Req
    requires pre.expires >= 0
  {
    r.(rawQuery := UrlQuery(pre, others))
  }

  lemma UrlPairs(pre: Presigned, others: seq<Pair>)
    requires pre.expires >= 0
    ensures var raw := UrlQuery(pre, others);
            && CanonicalQuery.Decodable(raw)
            && CanonicalQuery.Kept(raw, Q_SIGNATURE) ==
               Filter(CanonicalQuery.Keeps(Q_SIGNATURE), Params(pre) + others)
  {
    hide Tight, CanonicalQuery.Decodable, CanonicalQuery.Parts, ScopeText, FormatNat, Join, Params,
      CanonicalQuery.Pairs;
    var sig := CanonicalQuery.Pair(Q_SIGNATURE, pre.auth.signature);
    var ps := [sig] + (Params(pre) + others);
    TightQuery(ps);
    assert ps[1..] == Params(pre) + others;
    assert !CanonicalQuery.Keeps(Q_SIGNATURE)(ps[0]);
  }

  /** The canonical request of a URL does not depend on its signature. */
  lemma UrlTextStable(r: Req, pre: Presigned, others: seq<Pair>, signature: Str)
    requires pre.expires >= 0
    ensures var other := pre.(auth := pre.auth.(signature := signature));
            && CanonicalRequest.Build(UrlRequest(r, pre, others), pre.auth.signed, Q_SIGNATURE, UNSIGNED_PAYLOAD).Some?
            && CanonicalRequest.Build(UrlRequest(r, pre, others), pre.auth.signed, Q_SIGNATURE, UNSIGNED_PAYLOAD) ==
               CanonicalRequest.Build(UrlRequest(r, other, others), pre.auth.signed, Q_SIGNATURE, UNSIGNED_PAYLOAD)
  {
    hide CanonicalRequest.Build, UrlQuery, Params, CanonicalQuery.Kept, CanonicalQuery.Decodable;
    var other := pre.(auth := pre.auth.(signature := signature));
    SameParams(pre, signature);
    UrlPairs(pre, others);
    UrlPairs(other, others);
    SameUrlText(UrlRequest(r, pre, others), UrlRequest(r, other, others), pre.auth.signed);
  }

  lemma SameParams(pre: Presigned, signature: Str)
    requires pre.expires >= 0
    ensures Params(pre.(auth := pre.auth.(signature := signature))) == Params(pre)
  {
    hide FormatNat, Join;
  }

  /** Requests that differ only in queries of the same signed pairs have one canonical request. */
  lemma SameUrlText(r1: Req, r2: Req, signed: seq<Str>)
    requires r2 == r1.(rawQuery := r2.rawQuery)
    requires CanonicalQuery.Decodable(r1.rawQuery) && CanonicalQuery.Decodable(r2.rawQuery)
    requires multiset(CanonicalQuery.Kept(r1.rawQuery, Q_SIGNATURE)) ==
             multiset(CanonicalQuery.Kept(r2.rawQuery, Q_SIGNATURE))
    ensures var text := CanonicalRequest.Build(r1, signed, Q_SIGNATURE, UNSIGNED_PAYLOAD);
            text.Some? && text == CanonicalRequest.Build(r2, signed, Q_SIGNATURE, UNSIGNED_PAYLOAD)
  {
    hide CanonicalRequest.Build, CanonicalQuery.Kept, CanonicalQuery.Decodable, CanonicalRequest.HeaderValue,
      CanonicalRequest.CanonicalURI;
    CanonicalQuery.CanonicalSoundAndComplete(r1.rawQuery, r2.rawQuery, Q_SIGNATURE);
    forall n | n in signed ensures CanonicalRequest.HeaderValue(r1, n) == CanonicalRequest.HeaderValue(r2, n) {
      QueryIsNoHeader(r1, r2.rawQuery, n);
    }
    assert CanonicalRequest.CanonicalURI(r1) == CanonicalRequest.CanonicalURI(r2) by { QueryIsNoPath(r1, r2.rawQuery); }
    CanonicalRequest.BuildCongruent(r1, r2, signed, Q_SIGNATURE, UNSIGNED_PAYLOAD);
    UrlBuilds(r1, signed);
  }

  lemma QueryIsNoHeader(r: Req, raw: Str, n: Str)
    ensures CanonicalRequest.HeaderValue(r.(rawQuery := raw), n) == CanonicalRequest.HeaderValue(r, n)
  {
    hide CanonicalRequest.Normalize, CanonicalKey;
  }

  lemma QueryIsNoPath(r: Req, raw: Str)
    ensures CanonicalRequest.CanonicalURI(r.(rawQuery := raw)) == CanonicalRequest.CanonicalURI(r)
  {
  }

  /** The draft with its own signature put in. */
  function SignUrl(env: Env, r: Req, draft: Presigned, others: seq<Pair>, p: Party): Presigned
    requires UrlOk(draft)
  {
    var text := CanonicalRequest.Build(UrlRequest(r, draft, others), draft.auth.signed, Q_SIGNATURE, UNSIGNED_PAYLOAD);
    if text.None? then draft
    else draft.(auth := draft.auth.(signature := SignatureOf(env, draft.amzDate, p, text.value)))
  }

  predicate ScopeOf(pre: Presigned, p: Party) {
    && |pre.amzDate| >= 8 && pre.auth.date == pre.amzDate[..8]
    && pre.auth.region == p.region && pre.auth.service == p.service
  }

  lemma SignedUrlOk(env: Env, r: Req, draft: Presigned, others: seq<Pair>, p: Party)
    requires UrlOk(draft)
    ensures var s := SignUrl(env, r, draft, others, p);
            UrlOk(s) && s == draft.(auth := draft.auth.(signature := s.auth.signature))
  {
    hide CanonicalRequest.Build, SignatureOf, IsLowerHex, NameOk, FieldOk, UrlRequest;
  }

  lemma SignedUrlIsHonest(env: Env, r: Req, draft: Presigned, others: seq<Pair>, p: Party)
    requires UrlOk(draft) && ScopeOf(draft, p)
    ensures var s := SignUrl(env, r, draft, others, p);
            s.expires >= 0 && HonestUrl(env, UrlRequest(r, s, others), s, p) == Some(s.auth)
  {
    hide CanonicalRequest.Build, SignatureOf, UrlRequest, WellFormed;
    var s := SignUrl(env, r, draft, others, p);
    SignedUrlOk(env, r, draft, others, p);
    UrlTextStable(r, draft, others, s.auth.signature);
  }

  /** Presign, then parse, then verify: the URL is read as it was made, and accepted by every clock
      inside its window. */
  lemma PresignThenVerify(env: Env, r: Req, draft: Presigned, others: seq<Pair>, p: Party, now: int, skew: int)
    requires UrlOk(draft) && ScopeOf(draft, p) && InWindow(env, draft, now, skew)
    ensures var s := SignUrl(env, r, draft, others, p);
            && s.expires >= 0
            && var url := UrlRequest(r, s, others);
               IsPresigned(url.rawQuery) && ParsePresigned(url.rawQuery) == Ok(s)
               && VerifyPresigned(env, url, s, p, now, skew) == Ok(())
  {
    hide SignUrl, UrlQuery, UrlOk, VerifyPresigned, HonestUrl, ParsePresigned, IsPresigned, QueryGet;
    var s := SignUrl(env, r, draft, others, p);
    SignedUrlOk(env, r, draft, others, p);
    SignedUrlIsHonest(env, r, draft, others, p);
    UrlParses(s, others);
    UrlFields(s, others);
    AcceptedUrlExactlyWhen(env, UrlRequest(r, s, others), s, p, now, skew);
  }

  // ---- What one signature does not fix ----

  function ExpiresParam(seconds: nat): Pair { CanonicalQuery.Pair(Q_EXPIRES, FormatNat(seconds)) }

  /** The pairs of a URL that also carries a second lifetime: which of the two comes first does not
      show in the multiset. */
  lemma SwappedPairs(pre: Presigned, longer: nat, others: seq<Pair>)
    requires pre.expires >= 0
    ensures multiset(Params(pre) + ([ExpiresParam(longer)] + others)) ==
            multiset(Params(pre.(expires := longer * SECOND)) + ([ExpiresParam(pre.expires / SECOND)] + others))
  {
    hide FormatNat, ScopeText, Join;
    var ps, qs := Params(pre), Params(pre.(expires := longer * SECOND));
    assert longer * SECOND / SECOND == longer;
    assert ps == ps[..3] + [ExpiresParam(pre.expires / SECOND)] + ps[4..];
    assert qs == ps[..3] + [ExpiresParam(longer)] + ps[4..];
  }

  /** A URL that was signed with two lifetimes is accepted with either: swapping the two parameters
      keeps the signature and changes the lifetime that is read. */
  lemma OneSignatureTwoLifetimes(env: Env, r: Req, draft: Presigned, others: seq<Pair>, p: Party, longer: nat,
                                 now: int, skew: int)
    requires UrlOk(draft) && ScopeOf(draft, p) && 0 < longer <= MAX_EXPIRES
    requires InWindow(env, draft.(expires := longer * SECOND), now, skew)
    ensures var s := SignUrl(env, r, draft, [ExpiresParam(longer)] + others, p);
            var t := s.(expires := longer * SECOND);
            && s.expires == draft.expires
            && ParsePresigned(UrlQuery(s, [ExpiresParam(longer)] + others)) == Ok(s)
            && var swapped := UrlRequest(r, t, [ExpiresParam(draft.expires / SECOND)] + others);
               ParsePresigned(swapped.rawQuery) == Ok(t) && VerifyPresigned(env, swapped, t, p, now, skew) == Ok(())
  {
    hide SignUrl, UrlQuery, Params, VerifyPresigned, HonestUrl, ParsePresigned, WellFormed, ExpiresParam, SignatureOf;
    var more, less := [ExpiresParam(longer)] + others, [ExpiresParam(draft.expires / SECOND)] + others;
    var s := SignUrl(env, r, draft, more, p);
    var t := s.(expires := longer * SECOND);
    SignedUrlOk(env, r, draft, more, p);
    SignedUrlIsHonest(env, r, draft, more, p);
    UrlParses(s, more);
    UrlParses(t, less);
    SwappedIsHonest(env, r, s, longer, others, p);
    AcceptedUrlExactlyWhen(env, UrlRequest(r, t, less), t, p, now, skew);
  }

  lemma SwappedIsHonest(env: Env, r: Req, s: Presigned, longer: nat, others: seq<Pair>, p: Party)
    requires s.expires >= 0
    requires HonestUrl(env, UrlRequest(r, s, [ExpiresParam(longer)] + others), s, p) == Some(s.auth)
    ensures var t := s.(expires := longer * SECOND);
            HonestUrl(env, UrlRequest(r, t, [ExpiresParam(s.expires / SECOND)] + others), t, p) == Some(t.auth)
  {
    hide UrlQuery, Params, ExpiresParam, CanonicalRequest.Build, SignatureOf, CanonicalQuery.Kept,
      CanonicalQuery.Decodable;
    var more, less := [ExpiresParam(longer)] + others, [ExpiresParam(s.expires / SECOND)] + others;
    var t := s.(expires := longer * SECOND);
    SwappedPairs(s, longer, others);
    UrlPairs(s, more);
    UrlPairs(t, less);
    FilterMultiset(CanonicalQuery.Keeps(Q_SIGNATURE), Params(s) + more, Params(t) + less);
    SameUrlText(UrlRequest(r, s, more), UrlRequest(r, t, less), s.auth.signed);
  }

  // ---- What one signature fixes ----

  lemma PlainParams()
    ensures PlainName(Q_CREDENTIAL) && PlainName(Q_EXPIRES) && PlainName(SECURITY_TOKEN)
    ensures Q_SIGNATURE != Q_CREDENTIAL && Q_SIGNATURE != Q_EXPIRES && Q_SIGNATURE != SECURITY_TOKEN
  {
    ParamNames();
    LettersArePlain(Q_CREDENTIAL);
    LettersArePlain(Q_EXPIRES);
    LettersArePlain(SECURITY_TOKEN);
  }

  lemma LettersArePlain(n: Str)
    requires forall i :: 0 <= i < |n| ==> 'A' <= n[i] <= 'Z' || 'a' <= n[i] <= 'z' || n[i] == '-'
    ensures PlainName(n)
  {
  }

  /** The fields that nothing but the query carries. */
  lemma ParsedFields(raw: Str)
    requires ParsePresigned(raw).Ok?
    ensures var pre := ParsePresigned(raw).value;
            && |Split(QueryGet(raw, Q_CREDENTIAL), '/')| > 0
            && pre.auth.akid == Split(QueryGet(raw, Q_CREDENTIAL), '/')[0]
            && Atoi(QueryGet(raw, Q_EXPIRES)).Some? && pre.expires == Atoi(QueryGet(raw, Q_EXPIRES)).value * SECOND
            && pre.token == QueryGet(raw, SECURITY_TOKEN)
  {
    hide QueryGet, Split, Atoi, NameList, CleanName, IsLowerHex;
  }

  /** The three parameters that only the query carries, read as signed. */
  ghost predicate ReadsOneWay(raw: Str) {
    && Unequivocal(CanonicalQuery.Kept(raw, Q_SIGNATURE), Q_CREDENTIAL)
    && Unequivocal(CanonicalQuery.Kept(raw, Q_SIGNATURE), Q_EXPIRES)
    && Unequivocal(CanonicalQuery.Kept(raw, Q_SIGNATURE), SECURITY_TOKEN)
  }

  /** The three parameters have the same first values, or are absent from both. */
  ghost predicate ReadAlike(q1: Str, q2: Str) {
    && Lookup(CanonicalQuery.Parts(q1), Q_CREDENTIAL) == Lookup(CanonicalQuery.Parts(q2), Q_CREDENTIAL)
    && Lookup(CanonicalQuery.Parts(q1), Q_EXPIRES) == Lookup(CanonicalQuery.Parts(q2), Q_EXPIRES)
    && Lookup(CanonicalQuery.Parts(q1), SECURITY_TOKEN) == Lookup(CanonicalQuery.Parts(q2), SECURITY_TOKEN)
  }

  predicate SameSigned(q1: Str, q2: Str) {
    CanonicalQuery.Canonical(q1, Q_SIGNATURE) == CanonicalQuery.Canonical(q2, Q_SIGNATURE)
  }

  /** Every query that the same signature covers is read alike if and only if the three parameters
      are each signed with one plain value at most. */
  lemma UrlFixedExactlyWhen(raw: Str)
    requires CanonicalQuery.Decodable(raw)
    ensures ReadsOneWay(raw) <==>
            forall other :: CanonicalQuery.Decodable(other) && SameSigned(other, raw) ==> ReadAlike(other, raw)
  {
    hide CanonicalQuery.Decodable, CanonicalQuery.Canonical, CanonicalQuery.Kept, CanonicalQuery.Parts, Unequivocal,
      Lookup, PlainName;
    PlainParams();
    ReadingFixedExactlyWhen(raw, Q_SIGNATURE, Q_CREDENTIAL);
    ReadingFixedExactlyWhen(raw, Q_SIGNATURE, Q_EXPIRES);
    ReadingFixedExactlyWhen(raw, Q_SIGNATURE, SECURITY_TOKEN);
  }

  lemma SameReading(q1: Str, q2: Str)
    requires CanonicalQuery.Decodable(q1) && CanonicalQuery.Decodable(q2) && ReadsOneWay(q1)
    requires CanonicalQuery.Canonical(q1, Q_SIGNATURE) == CanonicalQuery.Canonical(q2, Q_SIGNATURE)
    ensures QueryGet(q1, Q_CREDENTIAL) == QueryGet(q2, Q_CREDENTIAL)
    ensures QueryGet(q1, Q_EXPIRES) == QueryGet(q2, Q_EXPIRES)
    ensures QueryGet(q1, SECURITY_TOKEN) == QueryGet(q2, SECURITY_TOKEN)
  {
    hide CanonicalQuery.Decodable, CanonicalQuery.Canonical, CanonicalQuery.Kept, CanonicalQuery.Parts, Unequivocal,
      Lookup, PlainName;
    PlainParams();
    ReadsAsSigned(q1, q2, Q_SIGNATURE, Q_CREDENTIAL);
    ReadsAsSigned(q1, q2, Q_SIGNATURE, Q_EXPIRES);
    ReadsAsSigned(q1, q2, Q_SIGNATURE, SECURITY_TOKEN);
  }

  /** One signature fixes the whole parsed URL, lifetime and session token included, when access key
      scope, lifetime and token are each signed with one value at most, and that one without plus and
      semicolon; otherwise the two computations collide. */
  lemma SignatureFixesUrl(env: Env, r1: Req, pre1: Presigned, p1: Party, t1: int,
                          r2: Req, pre2: Presigned, p2: Party, t2: int, skew: int)
    requires VerifyPresigned(env, r1, pre1, p1, t1, skew).Ok? && VerifyPresigned(env, r2, pre2, p2, t2, skew).Ok?
    requires ParsePresigned(r1.rawQuery) == Ok(pre1) && ParsePresigned(r2.rawQuery) == Ok(pre2)
    requires pre1.auth.signature == pre2.auth.signature && ReadsOneWay(r1.rawQuery)
    requires CanonicalRequest.OneLineFields(r1, pre1.auth.signed, UNSIGNED_PAYLOAD)
    requires CanonicalRequest.OneLineFields(r2, pre2.auth.signed, UNSIGNED_PAYLOAD)
    requires CanonicalQuery.Decodable(r1.rawQuery) && PlainScope(RecomputedUrl(env, r1, pre1, p1))
    requires CanonicalQuery.Decodable(r2.rawQuery) && PlainScope(RecomputedUrl(env, r2, pre2, p2))
    ensures Collision(env, RecomputedUrl(env, r1, pre1, p1), RecomputedUrl(env, r2, pre2, p2)) || pre1 == pre2
  {
    hide VerifyPresigned, ParsePresigned, QueryGet, ReadsOneWay, CanonicalRequest.OneLineFields, PlainScope, Collision,
      CanonicalQuery.Decodable, CanonicalQuery.Canonical, CanonicalQuery.Kept, CanonicalRequest.CanonicalURI,
      CanonicalRequest.HeaderValue, CanonicalRequest.Build, SignatureOf, Split, Atoi;
    SameSignatureSameUrl(env, r1, pre1, p1, t1, r2, pre2, p2, t2, skew);
    if !Collision(env, RecomputedUrl(env, r1, pre1, p1), RecomputedUrl(env, r2, pre2, p2)) {
      AcceptedUrlSignature(env, r1, pre1, p1, t1, skew);
      AcceptedUrlSignature(env, r2, pre2, p2, t2, skew);
      SameReading(r1.rawQuery, r2.rawQuery);
      ParsedFields(r1.rawQuery);
      ParsedFields(r2.rawQuery);
    }
  }
}
