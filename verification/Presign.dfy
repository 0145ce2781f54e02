/** Query-string ("presigned URL") authentication. */
module Presign {
  import opened Seqs
  import opened Strings
  import opened Primitives
  import opened Http
  import opened Authorization
  import opened SigV4
  import opened UriCoding
  import CanonicalQuery
  import CanonicalRequest

  const Q_ALGORITHM: Str := "X-Amz-Algorithm"
  const Q_CREDENTIAL: Str := "X-Amz-Credential"
  const Q_EXPIRES: Str := "X-Amz-Expires"
  const Q_SIGNED_HEADERS: Str := "X-Amz-SignedHeaders"
  const Q_SIGNATURE: Str := "X-Amz-Signature"
  const MAX_EXPIRES: int := 604800
  const DATE_LENGTH: int := 16

  // ---- url.Values, as URL.Query parses it ----

  /** A part that ParseQuery keeps: no semicolon, both halves decodable. */
  predicate FormPart(part: Str) {
    && ';' !in part
    && QueryUnescape(Cut(part, '=').before).Some? && QueryUnescape(Cut(part, '=').after).Some?
  }

  function Lookup(parts: seq<Str>, name: Str): Option<Str> {
    if parts == [] then None
    else if FormPart(parts[0]) && QueryUnescape(Cut(parts[0], '=').before) == Some(name) then
      QueryUnescape(Cut(parts[0], '=').after)
    else Lookup(parts[1..], name)
  }

  predicate QueryHas(raw: Str, name: Str) { Lookup(CanonicalQuery.Parts(raw), name).Some? }

  function QueryGet(raw: Str, name: Str): Str {
    var v := Lookup(CanonicalQuery.Parts(raw), name);
    if v.Some? then v.value else []
  }

  predicate IsPresigned(raw: Str) {
    QueryHas(raw, Q_ALGORITHM) || QueryHas(raw, Q_SIGNATURE)
  }

  // ---- Parsing ----

  datatype Presigned = Presigned(auth: Auth, amzDate: Str, expires: int, token: Str)

  function ParsePresigned(raw: Str): (r: Result<Presigned>)
    ensures r.Ok? ==> |r.value.amzDate| == DATE_LENGTH && 0 < r.value.expires <= MAX_EXPIRES * SECOND
  {
    var credential := QueryGet(raw, Q_CREDENTIAL);
    var names := QueryGet(raw, Q_SIGNED_HEADERS);
    var signature := QueryGet(raw, Q_SIGNATURE);
    var amzDate := QueryGet(raw, AMZ_DATE);
    var n := Atoi(QueryGet(raw, Q_EXPIRES));
    if QueryGet(raw, Q_ALGORITHM) != ALGORITHM then Err(Malformed)
    else if !CredentialOk(credential) || !NamesOk(names) || !SignatureOk(signature) then Err(Malformed)
    else if |amzDate| != DATE_LENGTH || n.None? || n.value <= 0 || n.value > MAX_EXPIRES then Err(Malformed)
    else
      var auth := WithScope(EMPTY_AUTH, credential).(signed := NameList(names), signature := CleanName(signature));
      Ok(Presigned(auth, amzDate, n.value * SECOND, QueryGet(raw, SECURITY_TOKEN)))
  }

  /** The source's function: fill the fields one setter at a time. */
  method ParsePresignedQuery(raw: Str) returns (r: Result<Presigned>)
    ensures r == ParsePresigned(raw)
  {
    hide QueryGet, Atoi, NameList, CleanName;
    if QueryGet(raw, Q_ALGORITHM) != ALGORITHM {
      return Err(Malformed);
    }
    var p := new Fields();
    var amzDate := QueryGet(raw, AMZ_DATE);
    var token := QueryGet(raw, SECURITY_TOKEN);
    var ok := p.SetCredential(QueryGet(raw, Q_CREDENTIAL));
    if !ok {
      return Err(Malformed);
    }
    ok := p.SetSignedHeaders(QueryGet(raw, Q_SIGNED_HEADERS));
    if !ok {
      return Err(Malformed);
    }
    ok := p.SetSignature(QueryGet(raw, Q_SIGNATURE));
    if !ok {
      return Err(Malformed);
    }
    if |amzDate| != DATE_LENGTH {
      return Err(Malformed);
    }
    var n := Atoi(QueryGet(raw, Q_EXPIRES));
    if n.None? || n.value <= 0 || n.value > MAX_EXPIRES {
      return Err(Malformed);
    }
    assert EMPTY_AUTH.signed + NameList(QueryGet(raw, Q_SIGNED_HEADERS)) == NameList(QueryGet(raw, Q_SIGNED_HEADERS));
    var auth := Auth(p.accessKeyID, p.date, p.region, p.service, p.signedHeaders, p.signature);
    return Ok(Presigned(auth, amzDate, n.value * SECOND, token));
  }

  // ---- Verifying ----

  function PresignPreliminary(env: Env, pre: Presigned, p: Party, now: int, skew: int): (r: Result<()>)
    ensures r.Ok? ==> |pre.amzDate| >= 8
  {
    var t := env.parse(pre.amzDate);
    if pre.auth.service != p.service || pre.auth.region != p.region then Err(Scope)
    else if t.None? then Err(Malformed)
    else if pre.amzDate[..8] != pre.auth.date then Err(Scope)
    else if Sub(t.value, now) > skew then Err(Skew)
    else if now > t.value + pre.expires then Err(PresignExpired)
    else Ok(())
  }

  function VerifyPresigned(env: Env, r: Req, pre: Presigned, p: Party, now: int, skew: int): Result<()> {
    var early := PresignPreliminary(env, pre, p, now, skew);
    if early.Err? then early
    else CheckSignature(env, pre.amzDate, pre.auth, p,
           CanonicalRequest.Build(r, pre.auth.signed, Q_SIGNATURE, UNSIGNED_PAYLOAD))
  }

  /** The header fields that a signer holding the party's secret puts into the URL for these signed
      names, over the request as it stands and for the date the URL carries. */
  function HonestUrl(env: Env, r: Req, pre: Presigned, p: Party): Option<Auth> {
    var canonical := CanonicalRequest.Build(r, pre.auth.signed, Q_SIGNATURE, UNSIGNED_PAYLOAD);
    if |pre.amzDate| < 8 || canonical.None? then None
    else Some(Auth(pre.auth.akid, pre.amzDate[..8], p.region, p.service, pre.auth.signed,
                   SignatureOf(env, pre.amzDate, p, canonical.value)))
  }

  predicate InWindow(env: Env, pre: Presigned, now: int, skew: int) {
    var t := env.parse(pre.amzDate);
    t.Some? && Sub(t.value, now) <= skew && now <= t.value + pre.expires
  }

  /** A URL is accepted if and only if the clock is inside its window and its fields are, one by one,
      those an honest signer puts into it; the signature parameter itself is not signed. */
  lemma AcceptedUrlExactlyWhen(env: Env, r: Req, pre: Presigned, p: Party, now: int, skew: int)
    ensures VerifyPresigned(env, r, pre, p, now, skew) == Ok(()) <==>
              InWindow(env, pre, now, skew) && HonestUrl(env, r, pre, p) == Some(pre.auth)
    ensures VerifyPresigned(env, r, pre, p, now, skew).Ok? ==> VerifyPresigned(env, r, pre, p, now, skew) == Ok(())
  {
    hide SignatureOf, CanonicalRequest.Build;
  }

  /** What each refusal means; no other error occurs. */
  ghost predicate UrlRefusedAs(env: Env, r: Req, pre: Presigned, p: Party, now: int, skew: int, e: Error) {
    var t := env.parse(pre.amzDate);
    match e
    case Scope =>
      || pre.auth.service != p.service || pre.auth.region != p.region
      || (|pre.amzDate| >= 8 && pre.amzDate[..8] != pre.auth.date)
    case Malformed => t.None? || !CanonicalQuery.Decodable(r.rawQuery)
    case Skew => t.Some? && Sub(t.value, now) > skew
    case PresignExpired => t.Some? && now > t.value + pre.expires
    case SignatureMismatch => InWindow(env, pre, now, skew) && HonestUrl(env, r, pre, p) != Some(pre.auth)
    case MissingDate => false
  }

  lemma UrlRefusalMeans(env: Env, r: Req, pre: Presigned, p: Party, now: int, skew: int)
    ensures var v := VerifyPresigned(env, r, pre, p, now, skew);
            v.Err? ==> UrlRefusedAs(env, r, pre, p, now, skew, v.error)
  {
    hide SignatureOf, CanonicalRequest.Text, CanonicalQuery.Render, CanonicalQuery.Kept;
  }

  /** A query asks for presigned authentication when either marker is there to be read. */
  lemma IsPresignedMeans(raw: Str)
    ensures IsPresigned(raw) <==>
            exists part :: part in CanonicalQuery.Parts(raw) && FormPart(part) &&
              var key := QueryUnescape(Cut(part, '=').before).value;
              key == "X-Amz-Algorithm" || key == "X-Amz-Signature"
  {
    hide FormPart, CanonicalQuery.Parts, QueryUnescape, Cut;
    LookupMeans(CanonicalQuery.Parts(raw), Q_ALGORITHM);
    LookupMeans(CanonicalQuery.Parts(raw), Q_SIGNATURE);
    FormPartDecodes();
  }

  lemma FormPartDecodes()
    ensures forall part :: FormPart(part) ==> QueryUnescape(Cut(part, '=').before).Some?
  {
  }

  lemma {:induction false} LookupMeans(parts: seq<Str>, name: Str)
    ensures Lookup(parts, name).Some? <==>
            exists part :: part in parts && FormPart(part) && QueryUnescape(Cut(part, '=').before) == Some(name)
  {
    if parts != [] {
      hide QueryUnescape, Cut;
      LookupMeans(parts[1..], name);
      assert parts == [parts[0]] + parts[1..];
    }
  }

  /** The first value of a name is read, whatever parts come before that are not of that name. */
  lemma {:induction false} LookupReads(before: seq<Str>, part: Str, after: seq<Str>, name: Str, v: Str)
    requires forall p :: p in before ==> !(FormPart(p) && QueryUnescape(Cut(p, '=').before) == Some(name))
    requires ';' !in part && QueryUnescape(Cut(part, '=').before) == Some(name)
    requires QueryUnescape(Cut(part, '=').after) == Some(v)
    ensures Lookup(before + [part] + after, name) == Some(v)
  {
    if before == [] {
      assert (before + [part] + after)[0] == part;
    } else {
      assert (before + [part] + after)[1..] == before[1..] + [part] + after;
      LookupReads(before[1..], part, after, name, v);
    }
  }

  /** What a parsed URL was read from: the algorithm is the one supported, and every field comes from
      the parameter of its name. */
  lemma ParsedUrlMeans(raw: Str)
    requires ParsePresigned(raw).Ok?
    ensures QueryGet(raw, "X-Amz-Algorithm") == "AWS4-HMAC-SHA256"
    ensures var pre := ParsePresigned(raw).value;
            && CredentialOk(QueryGet(raw, "X-Amz-Credential"))
            && pre.auth == WithScope(pre.auth, QueryGet(raw, "X-Amz-Credential"))
            && pre.amzDate == QueryGet(raw, "X-Amz-Date") && |pre.amzDate| == 16
            && pre.auth.signed == NameList(QueryGet(raw, "X-Amz-SignedHeaders")) && [] !in pre.auth.signed
            && pre.auth.signature == ToLower(TrimSpace(QueryGet(raw, "X-Amz-Signature"))) && |pre.auth.signature| == 64
            && pre.token == QueryGet(raw, "X-Amz-Security-Token")
            && Atoi(QueryGet(raw, "X-Amz-Expires")).Some?
            && var n := Atoi(QueryGet(raw, "X-Amz-Expires")).value;
               1 <= n <= 604800 && pre.expires == n * 1_000_000_000
  {
    hide QueryGet, Atoi, NameList, ToLower, TrimSpace, Split;
  }

  /** An accepted URL is used inside its window, at most a week long. */
  lemma AcceptedInWindow(env: Env, r: Req, pre: Presigned, p: Party, now: int, skew: int)
    requires VerifyPresigned(env, r, pre, p, now, skew).Ok? && skew < MAX_INT64
    requires ParsePresigned(r.rawQuery) == Ok(pre)
    ensures env.parse(pre.amzDate).Some?
    ensures var t := env.parse(pre.amzDate).value;
            t - skew <= now <= t + pre.expires <= t + MAX_EXPIRES * SECOND
  {
    hide CheckSignature, CanonicalRequest.Build, ParsePresigned;
  }

  /** The end of the window separates acceptance from the expired refusal, whatever the secret. */
  lemma WindowEnds(env: Env, r: Req, pre: Presigned, p: Party, now: int, skew: int)
    ensures var v := VerifyPresigned(env, r, pre, p, now, skew);
            var t := env.parse(pre.amzDate);
            && (v.Ok? ==> t.Some? && now <= t.value + pre.expires)
            && (v == Err(PresignExpired) ==> t.Some? && now > t.value + pre.expires)
  {
    hide CanonicalRequest.Build, SignatureOf;
  }

  /** A URL refused as expired stays refused as expired. */
  lemma ExpiredStaysExpired(env: Env, r: Req, pre: Presigned, p: Party, now: int, later: int, skew: int)
    requires VerifyPresigned(env, r, pre, p, now, skew) == Err(PresignExpired) && now <= later
    ensures VerifyPresigned(env, r, pre, p, later, skew) == Err(PresignExpired)
  {
    hide CanonicalRequest.Build, SignatureOf;
  }

  /** Both verifiers accept only requests whose query decodes completely. */
  lemma VerifiedQueryDecodes(env: Env, r: Req, a: Auth, pre: Presigned, p: Party, now: int, skew: int)
    ensures Verify(env, r, a, p, now, skew).Ok? ==> CanonicalQuery.Decodable(r.rawQuery)
    ensures VerifyPresigned(env, r, pre, p, now, skew).Ok? ==> CanonicalQuery.Decodable(r.rawQuery)
  {
    hide CanonicalRequest.Text, SignatureOf, Preliminary, PresignPreliminary, PayloadHash;
  }
}
