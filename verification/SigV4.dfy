/** Signing and verifying requests with header authentication. */
module SigV4 {
  import opened Seqs
  import opened Strings
  import opened Primitives
  import opened Http
  import opened Authorization
  import CanonicalQuery
  import CanonicalRequest

  const AUTHORIZATION: Str := "Authorization"
  const AMZ_DATE: Str := "X-Amz-Date"
  const CONTENT_SHA: Str := "X-Amz-Content-Sha256"
  const SECURITY_TOKEN: Str := "X-Amz-Security-Token"
  const UNSIGNED_PAYLOAD: Str := "UNSIGNED-PAYLOAD"
  const HOST: Str := "host"
  const AMZ_PREFIX: Str := "x-amz-"
  const KEY_PREFIX: Str := "AWS4"

  /** The secret, the expected scope and the clock a verifier or signer works with. */
  datatype Party = Party(secret: Str, region: Str, service: Str)

  function DeriveKey(env: Env, secret: Str, date: Str, region: Str, service: Str): Str {
    env.hmac(env.hmac(env.hmac(env.hmac(KEY_PREFIX + secret, date), region), service), REQUEST_TYPE)
  }

  function StringToSign(env: Env, amzDate: Str, date: Str, region: Str, service: Str, canonical: Str): Str {
    Join([ALGORITHM, amzDate, Join([date, region, service, REQUEST_TYPE], '/'), Hex(env.sha256(canonical))], '\n')
  }

  /** The signature over a canonical request; it is what signer and verifier both compute. */
  function SignatureOf(env: Env, amzDate: Str, p: Party, canonical: Str): (r: Str)
    requires |amzDate| >= 8
    ensures IsLowerHex(r)
  {
    var date := amzDate[..8];
    Hex(env.hmac(DeriveKey(env, p.secret, date, p.region, p.service),
                 StringToSign(env, amzDate, date, p.region, p.service, canonical)))
  }

  /** The declared hash of an empty body, sha256(""). */
  function EmptyBody(env: Env): Str { Hex(env.sha256([])) }

  function PayloadHash(h: Header, absent: Str): Str {
    if Get(h, CONTENT_SHA) == [] then absent else Get(h, CONTENT_SHA)
  }

  // ---- Verifying ----

  /** The checks that need no signature, in the order the source makes them. */
  function Preliminary(env: Env, amzDate: Str, a: Auth, p: Party, now: int, skew: int): (r: Result<()>)
    ensures r.Ok? ==> |amzDate| >= 8
  {
    if a.service != p.service || a.region != p.region then Err(Scope)
    else if amzDate == [] then Err(MissingDate)
    else if env.parse(amzDate).None? then Err(Malformed)
    else if Sub(now, env.parse(amzDate).value) > skew || Sub(now, env.parse(amzDate).value) < -skew then Err(Skew)
    else if amzDate[..8] != a.date then Err(Scope)
    else Ok(())
  }

  /** Recompute the signature and compare. */
  function CheckSignature(env: Env, amzDate: Str, a: Auth, p: Party, canonical: Option<Str>): Result<()>
    requires |amzDate| >= 8
  {
    if canonical.None? then Err(Malformed)
    else if SignatureOf(env, amzDate, p, canonical.value) != a.signature then Err(SignatureMismatch)
    else Ok(())
  }

  function Verify(env: Env, r: Req, a: Auth, p: Party, now: int, skew: int): Result<()> {
    var amzDate := Get(r.header, AMZ_DATE);
    var early := Preliminary(env, amzDate, a, p, now, skew);
    if early.Err? then early
    else CheckSignature(env, amzDate, a, p,
           CanonicalRequest.Build(r, a.signed, [], PayloadHash(r.header, EmptyBody(env))))
  }

  // ---- The header set a signature covers ----

  predicate IsAmz(k: Str) { HasPrefix(ToLower(k), AMZ_PREFIX) }

  /** host plus every x-amz-* name, lower case and sorted, from one iteration order of the map. */
  function NamesFrom(order: seq<Str>): seq<Str> {
    Sort(Leq, [HOST] + Map(ToLower, Filter(IsAmz, order)))
  }

  ghost function SetToSeq<T>(s: set<T>): (r: seq<T>)
    ensures multiset(r) == multiset(s)
  {
    if s == {} then [] else
    var x :| x in s;
    assert multiset(s) == multiset(s - {x}) + multiset{x};
    [x] + SetToSeq(s - {x})
  }

  ghost function SignedHeaderNames(h: Header): seq<Str> {
    NamesFrom(SetToSeq(h.Keys))
  }

  /** The iteration order of the header map does not show. */
  lemma OrderIsInvisible(h: Header, order: seq<Str>)
    requires multiset(order) == multiset(h.Keys)
    ensures NamesFrom(order) == SignedHeaderNames(h)
  {
    var keys := SetToSeq(h.Keys);
    FilterMultiset(IsAmz, order, keys);
    MapMultiset(ToLower, Filter(IsAmz, order), Filter(IsAmz, keys));
    LeqIsTotalOrder();
    SortCanonical(Leq, [HOST] + Map(ToLower, Filter(IsAmz, order)), [HOST] + Map(ToLower, Filter(IsAmz, keys)));
  }

  /** signedHeaderNames: range over the map in whatever order it yields, then sort. */
  method CollectSignedNames(h: Header) returns (names: seq<Str>)
    ensures names == SignedHeaderNames(h)
  {
    names := [HOST];
    var left := h.Keys;
    ghost var order: seq<Str> := [];
    while left != {}
      invariant left <= h.Keys && multiset(order) + multiset(left) == multiset(h.Keys)
      invariant names == [HOST] + Map(ToLower, Filter(IsAmz, order))
    {
      var name :| name in left;
      NamesStep(order, name);
      TakeOne(order, left, name);
      order := order + [name];
      left := left - {name};
      var lower := ToLower(name);
      if HasPrefix(lower, AMZ_PREFIX) {
        names := names + [lower];
      }
    }
    OrderIsInvisible(h, order);
    names := Sort(Leq, names);
  }

  lemma TakeOne(order: seq<Str>, left: set<Str>, name: Str)
    requires name in left
    ensures multiset(order + [name]) + multiset(left - {name}) == multiset(order) + multiset(left)
  {
    assert multiset(left) == multiset(left - {name}) + multiset{name};
  }

  lemma NamesStep(order: seq<Str>, name: Str)
    ensures Map(ToLower, Filter(IsAmz, order + [name])) ==
            Map(ToLower, Filter(IsAmz, order)) + if IsAmz(name) then [ToLower(name)] else []
  {
    FilterAppend(IsAmz, order, [name]);
    assert Filter(IsAmz, [name]) == if IsAmz(name) then [name] else [];
    MapAppend(ToLower, Filter(IsAmz, order), Filter(IsAmz, [name]));
  }

  /** Exactly host and the x-amz-* headers are signed. */
  lemma SignedNamesAre(h: Header, n: Str)
    ensures n in SignedHeaderNames(h) <==> n == HOST || exists k :: k in h && IsAmz(k) && n == ToLower(k)
  {
    var amz := Filter(IsAmz, SetToSeq(h.Keys));
    InSort([HOST] + Map(ToLower, amz), n);
    InMap(amz, n);
    assert forall k :: k in h <==> k in SetToSeq(h.Keys) by {
      forall k ensures k in h <==> k in SetToSeq(h.Keys) {
        assert k in SetToSeq(h.Keys) <==> k in multiset(SetToSeq(h.Keys));
      }
    }
  }

  lemma InSort(xs: seq<Str>, n: Str)
    ensures n in Sort(Leq, xs) <==> n in xs
  {
    assert n in Sort(Leq, xs) <==> n in multiset(Sort(Leq, xs));
    assert n in xs <==> n in multiset(xs);
  }

  lemma InMap(keys: seq<Str>, n: Str)
    ensures n in Map(ToLower, keys) <==> exists k :: k in keys && n == ToLower(k)
  {
    if n in Map(ToLower, keys) {
      var i :| 0 <= i < |keys| && n == Map(ToLower, keys)[i];
      assert keys[i] in keys;
    }
    forall k | k in keys && n == ToLower(k) ensures n in Map(ToLower, keys) {
      var i :| 0 <= i < |keys| && keys[i] == k;
      assert Map(ToLower, keys)[i] == n;
    }
  }

  lemma TokenNameOk(k: Str)
    requires IsToken(k)
    ensures NameOk(ToLower(k))
  {
    var n := ToLower(k);
    forall i | 0 <= i < |n|
      ensures n[i] as int < 0x80 && !IsAsciiSpace(n[i]) && n[i] != ';' && n[i] != ',' && Lower(n[i]) == n[i]
    {
      assert k[i] in k;
      TokenByteFacts(k[i]);
      TokenByteFacts(Lower(k[i]));
    }
    PlainNameOk(n);
  }

  lemma PlainNameOk(n: Str)
    requires n != []
    requires forall i :: 0 <= i < |n| ==>
               n[i] as int < 0x80 && !IsAsciiSpace(n[i]) && n[i] != ';' && n[i] != ',' && Lower(n[i]) == n[i]
    ensures NameOk(n)
  {
    assert ToLower(n) == n;
  }

  lemma SignedNamesOk(h: Header)
    requires TokenNames(h)
    ensures SignedHeaderNames(h) != []
    ensures forall n :: n in SignedHeaderNames(h) ==> NameOk(n)
  {
    SignedNamesAre(h, HOST);
    forall n | n in SignedHeaderNames(h) ensures NameOk(n) {
      SignedNamesAre(h, n);
      if n == HOST {
        assert ToLower(HOST) == HOST;
      } else {
        var k :| k in h && IsAmz(k) && n == ToLower(k);
        TokenNameOk(k);
      }
    }
  }

  // ---- Signing ----

  datatype Signed = Signed(req: Req, ok: bool)

  /** The request once Sign has set host, date and payload hash. */
  function Prepared(env: Env, r: Req, host: Str, now: int): Req {
    var r1 := if host != [] then r.(host := host) else r;
    var r2 := SetHeader(r1, AMZ_DATE, env.format(now));
    if Get(r2.header, CONTENT_SHA) == [] then SetHeader(r2, CONTENT_SHA, UNSIGNED_PAYLOAD) else r2
  }

  ghost function SignedAuth(env: Env, r: Req, akid: Str, p: Party, now: int, canonical: Str): Auth {
    var amzDate := env.format(now);
    Auth(akid, amzDate[..8], p.region, p.service, SignedHeaderNames(r.header), SignatureOf(env, amzDate, p, canonical))
  }

  ghost function CanonicalOf(r: Req): Option<Str> {
    CanonicalRequest.Build(r, SignedHeaderNames(r.header), [], Get(r.header, CONTENT_SHA))
  }

  /** Sign. On an undecodable query it fails after the headers have already been set. */
  ghost function Sign(env: Env, r: Req, akid: Str, p: Party, host: Str, now: int): Signed {
    var r' := Prepared(env, r, host, now);
    var canonical := CanonicalOf(r');
    if canonical.None? then Signed(r', false)
    else Signed(SetHeader(r', AUTHORIZATION, Print(SignedAuth(env, r', akid, p, now, canonical.value))), true)
  }

  /** The first half of Sign: host, date and payload hash. */
  method PrepareRequest(env: Env, r: Request, host: Str, now: int) returns (payloadHash: Str)
    modifies r
    ensures r.Value() == Prepared(env, old(r.Value()), host, now)
    ensures payloadHash == Get(r.header, CONTENT_SHA)
  {
    if host != [] {
      r.host := host;
    }
    r.Set(AMZ_DATE, env.format(now));
    payloadHash := Get(r.header, CONTENT_SHA);
    if payloadHash == [] {
      payloadHash := UNSIGNED_PAYLOAD;
      r.Set(CONTENT_SHA, payloadHash);
    }
  }

  /** The source's Sign, updating the request step by step. */
  method SignRequest(env: Env, r: Request, akid: Str, p: Party, host: Str, now: int) returns (ok: bool)
    modifies r
    ensures Signed(r.Value(), ok) == Sign(env, old(r.Value()), akid, p, host, now)
  {
    hide Print, SignatureOf, CanonicalRequest.Build, SignedHeaderNames, Prepared, Get;
    var payloadHash := PrepareRequest(env, r, host, now);
    var names := CollectSignedNames(r.header);
    var canonical := CanonicalRequest.BuildCanonical(r.Value(), names, [], payloadHash);
    if canonical.None? {
      return false;
    }
    var amzDate := env.format(now);
    var signature := SignatureOf(env, amzDate, p, canonical.value);
    r.Set(AUTHORIZATION, Print(Auth(akid, amzDate[..8], p.region, p.service, names, signature)));
    return true;
  }

  /** Signing fails exactly on a query with a malformed escape. */
  lemma SignFailsOnlyOnQuery(env: Env, r: Req, akid: Str, p: Party, host: Str, now: int)
    ensures Sign(env, r, akid, p, host, now).ok <==> CanonicalQuery.Decodable(r.rawQuery)
  {
    hide Print, SignedAuth, SignedHeaderNames, CanonicalRequest.Text, CanonicalQuery.Render;
  }

  lemma PreparedDate(env: Env, r: Req, host: Str, now: int)
    ensures Get(Prepared(env, r, host, now).header, AMZ_DATE) == env.format(now)
  {
    assert AMZ_DATE[6] != CONTENT_SHA[6];
  }

  lemma PreparedHash(env: Env, r: Req, host: Str, now: int)
    ensures Get(Prepared(env, r, host, now).header, CONTENT_SHA) != []
  {
  }

  lemma PreparedNames(env: Env, r: Req, host: Str, now: int)
    requires TokenNames(r.header)
    ensures TokenNames(Prepared(env, r, host, now).header)
  {
    TokenLiterals();
    var keys := Prepared(env, r, host, now).header.Keys;
    assert keys <= r.header.Keys + {AMZ_DATE, CONTENT_SHA};
  }

  lemma TokenLiterals()
    ensures IsToken(AMZ_DATE) && IsToken(CONTENT_SHA)
  {
    LiteralToken(AMZ_DATE);
    LiteralToken(CONTENT_SHA);
  }

  predicate IsNameByte(c: Byte) {
    'A' <= c <= 'Z' || 'a' <= c <= 'z' || '0' <= c <= '9' || c == '-'
  }

  lemma LiteralToken(s: Str)
    requires s != [] && forall i :: 0 <= i < |s| ==> IsNameByte(s[i])
    ensures IsToken(s)
  {
  }

  lemma AmzFirst(n: Str)
    requires HasPrefix(n, AMZ_PREFIX)
    ensures n[0] == 'x' && (CanonicalKey(n)[0] == 'X' || CanonicalKey(n)[0] == 'x')
    ensures CanonicalKey(n) != AUTHORIZATION
  {
    assert n[0] == AMZ_PREFIX[0];
    assert AUTHORIZATION[0] == 'A';
  }

  /** Setting the Authorization header changes no value that Sign covers. */
  lemma AuthorizationNotCovered(r: Req, value: Str, n: Str)
    requires n in SignedHeaderNames(r.header)
    ensures CanonicalRequest.HeaderValue(SetHeader(r, AUTHORIZATION, value), n) == CanonicalRequest.HeaderValue(r, n)
  {
    hide SignedHeaderNames, CanonicalKey, CanonicalRequest.Normalize;
    SignedNamesAre(r.header, n);
    if n != HOST {
      AmzFirst(n);
    }
  }

  lemma SignedTextStable(r: Req, value: Str, payloadHash: Str)
    ensures CanonicalRequest.Build(SetHeader(r, AUTHORIZATION, value), SignedHeaderNames(r.header), [], payloadHash)
         == CanonicalRequest.Build(r, SignedHeaderNames(r.header), [], payloadHash)
  {
    var names := SignedHeaderNames(r.header);
    forall n | n in names
      ensures CanonicalRequest.HeaderValue(SetHeader(r, AUTHORIZATION, value), n) == CanonicalRequest.HeaderValue(r, n)
    {
      AuthorizationNotCovered(r, value, n);
    }
    CanonicalRequest.BuildCongruent(SetHeader(r, AUTHORIZATION, value), r, names, [], payloadHash);
  }

  lemma DateFieldOk(env: Env, now: int)
    requires 0 <= now < END_OF_DATES
    ensures FieldOk(env.format(now)[..8])
  {
    forall c | c in env.format(now)[..8] ensures IsDateByte(c) {
      assert c in env.format(now);
    }
  }

  lemma SignedAuthWellFormed(env: Env, r: Req, akid: Str, p: Party, now: int, canonical: Str)
    requires TokenNames(r.header)
    requires akid != [] && FieldOk(akid) && FieldOk(p.region) && FieldOk(p.service)
    requires 0 <= now < END_OF_DATES
    ensures WellFormed(SignedAuth(env, r, akid, p, now, canonical))
  {
    SignedNamesOk(r.header);
    DateFieldOk(env, now);
  }

  /** What Sign prints parses back to exactly the fields it signed with. */
  lemma SignThenParse(env: Env, r: Req, akid: Str, p: Party, host: Str, now: int)
    requires TokenNames(r.header) && CanonicalQuery.Decodable(r.rawQuery)
    requires akid != [] && FieldOk(akid) && FieldOk(p.region) && FieldOk(p.service)
    requires 0 <= now < END_OF_DATES
    ensures var s := Sign(env, r, akid, p, host, now);
            var r' := Prepared(env, r, host, now);
            && s.ok && CanonicalOf(r').Some?
            && Parse(Get(s.req.header, AUTHORIZATION)) == Ok(SignedAuth(env, r', akid, p, now, CanonicalOf(r').value))
  {
    hide Print, Parse, SignatureOf, SignedHeaderNames, WellFormed, CanonicalRequest.Text;
    var r' := Prepared(env, r, host, now);
    PreparedNames(env, r, host, now);
    SignFailsOnlyOnQuery(env, r, akid, p, host, now);
    var a := SignedAuth(env, r', akid, p, now, CanonicalOf(r').value);
    SignedAuthWellFormed(env, r', akid, p, now, CanonicalOf(r').value);
    PrintParse(a);
  }

  /** The header that a signer holding the party's secret prints for these signed names, over the
      request as it stands and for the date it carries. */
  function HonestHeader(env: Env, r: Req, akid: Str, signed: seq<Str>, p: Party): Option<Auth> {
    var amzDate := Get(r.header, AMZ_DATE);
    var canonical := CanonicalRequest.Build(r, signed, [], PayloadHash(r.header, EmptyBody(env)));
    if |amzDate| < 8 || canonical.None? then None
    else Some(Auth(akid, amzDate[..8], p.region, p.service, signed, SignatureOf(env, amzDate, p, canonical.value)))
  }

  predicate FreshDate(env: Env, amzDate: Str, now: int, skew: int) {
    env.parse(amzDate).Some? && -skew <= Sub(now, env.parse(amzDate).value) <= skew
  }

  /** A request is accepted if and only if its date is fresh and its header is, field by field, the
      one an honest signer prints for it. */
  lemma AcceptedExactlyWhen(env: Env, r: Req, a: Auth, p: Party, now: int, skew: int)
    ensures Verify(env, r, a, p, now, skew) == Ok(()) <==>
              FreshDate(env, Get(r.header, AMZ_DATE), now, skew) && HonestHeader(env, r, a.akid, a.signed, p) == Some(a)
    ensures Verify(env, r, a, p, now, skew).Ok? ==> Verify(env, r, a, p, now, skew) == Ok(())
  {
    hide SignatureOf, CanonicalRequest.Build, Get, PayloadHash, EmptyBody;
  }

  lemma AuthorizationKeepsOthers(r: Req, value: Str)
    ensures Get(SetHeader(r, AUTHORIZATION, value).header, AMZ_DATE) == Get(r.header, AMZ_DATE)
    ensures Get(SetHeader(r, AUTHORIZATION, value).header, CONTENT_SHA) == Get(r.header, CONTENT_SHA)
  {
    assert AUTHORIZATION[0] != AMZ_DATE[0] && AUTHORIZATION[0] != CONTENT_SHA[0];
  }

  lemma SignedFields(env: Env, r: Req, akid: Str, p: Party, now: int, canonical: Str)
    ensures var a := SignedAuth(env, r, akid, p, now, canonical);
            a.akid == akid && a.signed == SignedHeaderNames(r.header)
  {
    hide SignatureOf, SignedHeaderNames;
  }

  /** The header that Sign adds is the honest one for the request that carries it. */
  lemma SignedIsHonest(env: Env, r: Req, akid: Str, p: Party, now: int)
    requires Get(r.header, AMZ_DATE) == env.format(now) && Get(r.header, CONTENT_SHA) != [] && CanonicalOf(r).Some?
    ensures var a := SignedAuth(env, r, akid, p, now, CanonicalOf(r).value);
            HonestHeader(env, SetHeader(r, AUTHORIZATION, Print(a)), akid, SignedHeaderNames(r.header), p) == Some(a)
  {
    hide Print, SignatureOf, SignedHeaderNames, CanonicalRequest.Build, EmptyBody, Get, SetHeader;
    var a := SignedAuth(env, r, akid, p, now, CanonicalOf(r).value);
    AuthorizationKeepsOthers(r, Print(a));
    SignedTextStable(r, Print(a), Get(r.header, CONTENT_SHA));
  }

  lemma SignIs(env: Env, r: Req, akid: Str, p: Party, host: Str, now: int)
    requires CanonicalOf(Prepared(env, r, host, now)).Some?
    ensures var r' := Prepared(env, r, host, now);
            var a := SignedAuth(env, r', akid, p, now, CanonicalOf(r').value);
            Sign(env, r, akid, p, host, now).req == SetHeader(r', AUTHORIZATION, Print(a))
  {
    hide Print, SignedAuth, CanonicalOf, Prepared;
  }

  lemma FormattedIsFresh(env: Env, now: int, later: int, skew: int)
    requires 0 <= now < END_OF_DATES && -skew <= later - (now - now % SECOND) <= skew
    ensures FreshDate(env, env.format(now), later, skew)
  {
  }

  /** Sign, then parse, then verify: accepted by any clock within the skew of the signed second. */
  lemma SignThenVerify(env: Env, r: Req, akid: Str, p: Party, host: Str, now: int, later: int, skew: int)
    requires TokenNames(r.header) && CanonicalQuery.Decodable(r.rawQuery)
    requires akid != [] && FieldOk(akid) && FieldOk(p.region) && FieldOk(p.service)
    requires 0 <= now < END_OF_DATES
    requires -skew <= later - (now - now % SECOND) <= skew
    ensures var s := Sign(env, r, akid, p, host, now);
            var a := Parse(Get(s.req.header, AUTHORIZATION));
            s.ok && a.Ok? && a.value.akid == akid && Verify(env, s.req, a.value, p, later, skew) == Ok(())
  {
    hide Sign, Print, Parse, SignedAuth, CanonicalOf, HonestHeader, FreshDate, FieldOk, TokenNames,
      CanonicalQuery.Decodable, Verify, Prepared, SetHeader, Get;
    SignThenParse(env, r, akid, p, host, now);
    var r' := Prepared(env, r, host, now);
    var a := SignedAuth(env, r', akid, p, now, CanonicalOf(r').value);
    PreparedDate(env, r, host, now);
    PreparedHash(env, r, host, now);
    SignIs(env, r, akid, p, host, now);
    AuthorizationKeepsOthers(r', Print(a));
    SignedIsHonest(env, r', akid, p, now);
    SignedFields(env, r', akid, p, now, CanonicalOf(r').value);
    FormattedIsFresh(env, now, later, skew);
    AcceptedExactlyWhen(env, SetHeader(r', AUTHORIZATION, Print(a)), a, p, later, skew);
  }

  /** The signature covers every x-amz-* header the request carries, with its values. */
  lemma SignCoversAmzHeaders(r: Req, k: Str)
    requires CanonicalNames(r.header) && k in r.header && IsAmz(k)
    ensures ToLower(k) in SignedHeaderNames(r.header)
    ensures CanonicalRequest.HeaderValue(r, ToLower(k)) == Join(Map(CanonicalRequest.Normalize, r.header[k]), ',')
  {
    SignedNamesAre(r.header, ToLower(k));
    LowerNameFindsKey(k);
    assert ToLower(k)[0] == AMZ_PREFIX[0];
  }

  // ---- The algorithm, spelled out ----

  /** The four-step signing key over the secret, and the four-line text that is signed with it. */
  lemma SignatureIs(env: Env, amzDate: Str, p: Party, canonical: Str)
    requires |amzDate| >= 8
    ensures var date := amzDate[..8];
            var dated := env.hmac(env.hmac("AWS4" + p.secret, date), p.region);
            var key := env.hmac(env.hmac(dated, p.service), "aws4_request");
            var scope := date + "/" + p.region + "/" + p.service + "/" + "aws4_request";
            SignatureOf(env, amzDate, p, canonical) ==
            Hex(env.hmac(key, "AWS4-HMAC-SHA256" + "\n" + amzDate + "\n" + scope + "\n" + Hex(env.sha256(canonical))))
  {
    hide Hex;
    FourParts(amzDate[..8], p.region, p.service, "aws4_request", '/');
    FourParts("AWS4-HMAC-SHA256", amzDate, amzDate[..8] + "/" + p.region + "/" + p.service + "/" + "aws4_request",
              Hex(env.sha256(canonical)), '\n');
  }

  lemma FourParts(a: Str, b: Str, c: Str, d: Str, sep: Byte)
    ensures Join([a, b, c, d], sep) == a + [sep] + b + [sep] + c + [sep] + d
  {
    JoinAppend([a, b, c], [d], sep);
    JoinAppend([a, b], [c], sep);
    JoinAppend([a], [b], sep);
    assert [a, b, c] + [d] == [a, b, c, d] && [a, b] + [c] == [a, b, c] && [a] + [b] == [a, b];
  }

  /** What a request declares of its payload; without a declaration, the hash of no bytes. */
  lemma PayloadMeans(env: Env, h: Header, v: Str, more: seq<Str>)
    ensures v != [] ==> PayloadHash(h["X-Amz-Content-Sha256" := [v] + more], EmptyBody(env)) == v
    ensures PayloadHash(h - {"X-Amz-Content-Sha256"}, EmptyBody(env)) == Hex(env.sha256([]))
  {
  }

  /** Signed names are "host" and the lower-case names that start with "x-amz-", in ascending order. */
  lemma SignedNamesMean(h: Header, n: Str)
    ensures n in SignedHeaderNames(h) <==> n == "host" || exists k :: k in h && n == ToLower(k) && "x-amz-" <= n
  {
    hide SignedHeaderNames, ToLower;
    SignedNamesAre(h, n);
    assert forall k :: IsAmz(k) <==> "x-amz-" <= ToLower(k);
  }

  lemma SignedNamesAscend(h: Header, i: nat, j: nat)
    requires i < j < |SignedHeaderNames(h)|
    ensures AtMost(SignedHeaderNames(h)[i], SignedHeaderNames(h)[j])
  {
    hide Leq, AtMost;
    LeqIsTotalOrder();
    SortSorts(Leq, [HOST] + Map(ToLower, Filter(IsAmz, SetToSeq(h.Keys))));
    LeqMeans(SignedHeaderNames(h)[i], SignedHeaderNames(h)[j]);
  }

  /** What each refusal means; no other error occurs. */
  ghost predicate RefusedAs(env: Env, r: Req, a: Auth, p: Party, now: int, skew: int, e: Error) {
    var date := Get(r.header, "X-Amz-Date");
    match e
    case Scope => a.service != p.service || a.region != p.region || (|date| >= 8 && date[..8] != a.date)
    case MissingDate => date == []
    case Malformed => (date != [] && env.parse(date).None?) || !CanonicalQuery.Decodable(r.rawQuery)
    case Skew => env.parse(date).Some? && !(-skew <= Sub(now, env.parse(date).value) <= skew)
    case SignatureMismatch =>
      FreshDate(env, date, now, skew) && HonestHeader(env, r, a.akid, a.signed, p) != Some(a)
    case PresignExpired => false
  }

  lemma RefusalMeans(env: Env, r: Req, a: Auth, p: Party, now: int, skew: int)
    ensures var v := Verify(env, r, a, p, now, skew); v.Err? ==> RefusedAs(env, r, a, p, now, skew, v.error)
  {
    hide SignatureOf, CanonicalRequest.Text, CanonicalQuery.Render, CanonicalQuery.Kept, Get, EmptyBody, PayloadHash;
  }
}
