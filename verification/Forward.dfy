/** Identity injection: the outgoing request names the authenticated user in its Credential field. */
module Forward {
  import opened Seqs
  import opened Strings
  import opened Primitives
  import opened Http
  import opened Authorization
  import opened SigV4
  import opened Presign
  import CanonicalQuery
  import CanonicalRequest
  import StripQuery

  const SERVICE: Str := "s3"
  const X_AMZ_DATE: Str := "x-amz-date"
  const X_AMZ_SECURITY_TOKEN: Str := "x-amz-security-token"
  const RESIGN_SECRET: Str := "ozone-oidc-proxy-resign"
  const JUNK_SIGNATURE: Str := seq(64, i => '0')

  /** The default username policy `^[A-Za-z0-9._@-]{1,64}$`. */
  predicate ValidUsername(u: Str) {
    && 1 <= |u| <= 64
    && forall c :: c in u ==>
         'A' <= c <= 'Z' || 'a' <= c <= 'z' || '0' <= c <= '9' || c == '.' || c == '_' || c == '@' || c == '-'
  }

  /** One to 64 letters, digits, or one of the four other signs. */
  lemma UsernameMeans(u: Str)
    ensures ValidUsername(u) <==>
            1 <= |u| <= 64 && forall i :: 0 <= i < |u| ==>
              'A' <= u[i] <= 'Z' || 'a' <= u[i] <= 'z' || '0' <= u[i] <= '9' || u[i] in "._@-"
  {
    assert forall i :: 0 <= i < |u| ==> u[i] in u;
    assert forall c :: c in "._@-" <==> c == '.' || c == '_' || c == '@' || c == '-';
  }

  lemma UsernameField(u: Str)
    requires ValidUsername(u)
    ensures u != [] && FieldOk(u)
  {
  }

  // ---- The three shapes ----

  function SyntheticAuth(env: Env, user: Str, region: Str, now: int): Auth {
    Auth(user, env.format(now)[..8], region, SERVICE, [HOST, X_AMZ_DATE], JUNK_SIGNATURE)
  }

  function Synthetic(env: Env, r: Req, user: Str, region: Str, now: int): Req {
    var r1 := SetHeader(r, AUTHORIZATION, Print(SyntheticAuth(env, user, region, now)));
    var r2 := SetHeader(r1, AMZ_DATE, env.format(now));
    DelHeader(SetHeader(r2, CONTENT_SHA, UNSIGNED_PAYLOAD), SECURITY_TOKEN)
  }

  ghost function Resign(env: Env, r: Req, user: Str, upstreamHost: Str, region: Str, now: int): Signed {
    Sign(env, DelHeader(r, SECURITY_TOKEN), user, Party(RESIGN_SECRET, region, SERVICE), upstreamHost, now)
  }

  predicate NotToken(name: Str) { name != X_AMZ_SECURITY_TOKEN }

  function RewrittenAuth(a: Auth, user: Str): Auth {
    a.(akid := user, signed := Filter(NotToken, a.signed))
  }

  function Rewrite(r: Req, a: Auth, user: Str): Req {
    DelHeader(SetHeader(r, AUTHORIZATION, Print(RewrittenAuth(a, user))), SECURITY_TOKEN)
  }

  /** upstream.forward_mode, security.region and the upstream host. */
  datatype Upstream = Upstream(resign: bool, region: Str, host: Str)

  /** applyIdentity; `auth` is the verified header on the SigV4 lane, None elsewhere. The clock is
      read again for the fallback. A failed resign has already updated the request. */
  ghost function ApplyIdentity(env: Env, up: Upstream, r: Req, user: Str, auth: Option<Auth>, now: int,
                               again: int): Req {
    var s := Resign(env, r, user, up.host, up.region, now);
    var r' := if up.resign then s.req else r;
    if up.resign && s.ok then s.req
    else if auth.Some? then Rewrite(r', auth.value, user)
    else Synthetic(env, r', user, up.region, again)
  }

  // ---- In place ----

  method ApplySynthetic(env: Env, r: Request, user: Str, region: Str, now: int)
    modifies r
    ensures r.Value() == Synthetic(env, old(r.Value()), user, region, now)
  {
    hide Print;
    r.Set(AUTHORIZATION, Print(SyntheticAuth(env, user, region, now)));
    r.Set(AMZ_DATE, env.format(now));
    r.Set(CONTENT_SHA, UNSIGNED_PAYLOAD);
    r.Del(SECURITY_TOKEN);
  }

  method ApplyResign(env: Env, r: Request, user: Str, upstreamHost: Str, region: Str, now: int) returns (ok: bool)
    modifies r
    ensures Signed(r.Value(), ok) == Resign(env, old(r.Value()), user, upstreamHost, region, now)
  {
    hide Sign;
    r.Del(SECURITY_TOKEN);
    ok := SignRequest(env, r, user, Party(RESIGN_SECRET, region, SERVICE), upstreamHost, now);
  }

  method RewriteAccessKeyID(r: Request, a: Auth, user: Str)
    modifies r
    ensures r.Value() == Rewrite(old(r.Value()), a, user)
  {
    hide Print;
    var signed: seq<Str> := [];
    for i := 0 to |a.signed|
      invariant signed == Filter(NotToken, a.signed[..i])
      invariant r.Value() == old(r.Value())
    {
      FilterSnoc(NotToken, a.signed, i);
      if a.signed[i] != X_AMZ_SECURITY_TOKEN {
        signed := signed + [a.signed[i]];
      }
    }
    assert a.signed[..|a.signed|] == a.signed;
    r.Set(AUTHORIZATION, Print(Auth(user, a.date, a.region, a.service, signed, a.signature)));
    r.Del(SECURITY_TOKEN);
  }

  method Inject(env: Env, up: Upstream, r: Request, user: Str, auth: Option<Auth>, now: int, again: int)
    modifies r
    ensures r.Value() == ApplyIdentity(env, up, old(r.Value()), user, auth, now, again)
  {
    hide Resign, Rewrite, Synthetic;
    if up.resign {
      var ok := ApplyResign(env, r, user, up.host, up.region, now);
      if ok {
        return;
      }
    }
    if auth.Some? {
      RewriteAccessKeyID(r, auth.value, user);
      return;
    }
    ApplySynthetic(env, r, user, up.region, again);
  }

  // ---- Attribution ----

  lemma TokenHeaderIsOther()
    ensures SECURITY_TOKEN != AUTHORIZATION && SECURITY_TOKEN != AMZ_DATE && SECURITY_TOKEN != CONTENT_SHA
    ensures AUTHORIZATION != AMZ_DATE && AUTHORIZATION != CONTENT_SHA
  {
    assert SECURITY_TOKEN[6] == 'S' && AMZ_DATE[6] == 'D' && CONTENT_SHA[6] == 'C';
    assert SECURITY_TOKEN[0] == 'X' && AUTHORIZATION[0] == 'A' && AMZ_DATE[0] == 'X' && CONTENT_SHA[0] == 'X';
  }

  lemma SyntheticNamesOk()
    ensures NameOk(HOST) && NameOk(X_AMZ_DATE)
  {
    PlainNameOk(HOST);
    PlainNameOk(X_AMZ_DATE);
  }

  lemma SyntheticConstantsOk()
    ensures FieldOk(SERVICE) && IsLowerHex(JUNK_SIGNATURE)
  {
    assert |SERVICE| == 2;
  }

  lemma SyntheticWellFormed(env: Env, user: Str, region: Str, now: int)
    requires ValidUsername(user) && FieldOk(region) && 0 <= now < END_OF_DATES
    ensures WellFormed(SyntheticAuth(env, user, region, now))
  {
    hide ValidUsername, IsLowerHex, NameOk, FieldOk;
    UsernameField(user);
    DateFieldOk(env, now);
    SyntheticNamesOk();
    SyntheticConstantsOk();
  }

  /** Three headers set and a fourth deleted. */
  lemma FourHeaders(r: Req, k1: Str, v1: Str, k2: Str, v2: Str, k3: Str, v3: Str, gone: Str)
    requires k1 != k2 && k1 != k3 && k1 != gone
    ensures var h := DelHeader(SetHeader(SetHeader(SetHeader(r, k1, v1), k2, v2), k3, v3), gone).header;
            gone !in h && Get(h, k1) == v1
  {
  }

  lemma SyntheticHeaders(env: Env, r: Req, user: Str, region: Str, now: int)
    ensures var h := Synthetic(env, r, user, region, now).header;
            && SECURITY_TOKEN !in h
            && Get(h, AUTHORIZATION) == Print(SyntheticAuth(env, user, region, now))
  {
    hide Print, SetHeader, DelHeader, Get;
    TokenHeaderIsOther();
    FourHeaders(r, AUTHORIZATION, Print(SyntheticAuth(env, user, region, now)), AMZ_DATE, env.format(now),
                CONTENT_SHA, UNSIGNED_PAYLOAD, SECURITY_TOKEN);
  }

  /** The synthetic header parses back to the user, and the session token is gone. */
  lemma SyntheticAttribution(env: Env, r: Req, user: Str, region: Str, now: int)
    requires ValidUsername(user) && FieldOk(region) && 0 <= now < END_OF_DATES
    ensures var h := Synthetic(env, r, user, region, now).header;
            && SECURITY_TOKEN !in h
            && Parse(Get(h, AUTHORIZATION)) ==
               Ok(Auth(user, env.format(now)[..8], region, "s3", ["host", "x-amz-date"], seq(64, i => '0')))
  {
    hide Print, Parse, Synthetic, WellFormed;
    SyntheticHeaders(env, r, user, region, now);
    SyntheticWellFormed(env, user, region, now);
    PrintParse(SyntheticAuth(env, user, region, now));
  }

  lemma SignKeepsTokenOut(env: Env, r: Req, akid: Str, p: Party, host: Str, now: int)
    requires SECURITY_TOKEN !in r.header
    ensures SECURITY_TOKEN !in Sign(env, r, akid, p, host, now).req.header
  {
    hide Print, CanonicalOf, SignedAuth;
    TokenHeaderIsOther();
  }

  /** In resign mode the header is freshly signed for the user, and a verifier holding the resign
      secret accepts the forwarded request. */
  lemma ResignAttribution(env: Env, r: Req, user: Str, host: Str, region: Str, now: int, later: int, skew: int)
    requires ValidUsername(user) && FieldOk(region) && 0 <= now < END_OF_DATES
    requires TokenNames(r.header) && CanonicalQuery.Decodable(r.rawQuery)
    requires -skew <= later - (now - now % SECOND) <= skew
    ensures var s := Resign(env, r, user, host, region, now);
            var a := Parse(Get(s.req.header, AUTHORIZATION));
            && s.ok && a.Ok? && a.value.akid == user && SECURITY_TOKEN !in s.req.header
            && a.value.date == env.format(now)[..8] && a.value.region == region && a.value.service == "s3"
            && Verify(env, s.req, a.value, Party("ozone-oidc-proxy-resign", region, "s3"), later, skew) == Ok(())
  {
    hide Sign, Verify, Parse;
    SignThenParse(env, DelHeader(r, SECURITY_TOKEN), user, Party(RESIGN_SECRET, region, SERVICE), host, now);
    UsernameField(user);
    assert FieldOk(SERVICE) by { assert SERVICE == "s3"; }
    SignThenVerify(env, DelHeader(r, SECURITY_TOKEN), user, Party(RESIGN_SECRET, region, SERVICE), host, now, later,
                   skew);
    SignKeepsTokenOut(env, DelHeader(r, SECURITY_TOKEN), user, Party(RESIGN_SECRET, region, SERVICE), host, now);
  }

  lemma RewriteHeaders(r: Req, a: Auth, user: Str)
    ensures var h := Rewrite(r, a, user).header;
            SECURITY_TOKEN !in h && Get(h, AUTHORIZATION) == Print(RewrittenAuth(a, user))
  {
    hide Print;
    TokenHeaderIsOther();
  }

  lemma EmptyNamesPart(part: Str)
    requires KindOf(part) == Names([])
    ensures !Good(part)
  {
    assert Split([], ';') == [[]];
    assert NameList([])[0] == CleanName([]) == [];
  }

  lemma EmptyListKind()
    ensures KindOf(SPACE + (SIGNED_HEADERS + EQUALS + [])) == Names([])
  {
    ComponentKeys();
    KeyPrefix(SIGNED_HEADERS);
    assert SIGNED_HEADERS + EQUALS + [] == SIGNED_HEADERS + EQUALS;
    ComponentKind(SIGNED_HEADERS, []);
  }

  /** A header printed with an empty signed list does not parse. */
  lemma EmptyListUnparseable(a: Auth)
    requires WellFormed(a)
    ensures Parse(Print(a.(signed := []))) == Err(Malformed)
  {
    var b := a.(signed := []);
    var cred, names, sig := SPACE + CredentialPart(b), SPACE + SignedPart(b), SPACE + SignaturePart(b);
    hide KindOf, Good, ScopeText;
    assert ScopeText(a) == ScopeText(b) by { ScopeOnly(a, []); }
    CredentialRoundTrip(a);
    SignatureRoundTrip(a);
    EmptyListKind();
    EmptyNamesPart(names);
    ComponentKeys();
    SplitJoin([cred, names, sig], ',');
    DropAlgorithm(Join([cred, names, sig], ','));
    assert names in [cred, names, sig];
  }

  lemma ScopeOnly(a: Auth, signed: seq<Str>)
    ensures ScopeText(a.(signed := signed)) == ScopeText(a)
  {
  }

  lemma NothingElseSigned(signed: seq<Str>)
    ensures Filter(NotToken, signed) == [] <==> !exists n :: n in signed && NotToken(n)
  {
    hide NotToken;
    if Filter(NotToken, signed) != [] {
      assert Filter(NotToken, signed)[0] in Filter(NotToken, signed);
    }
  }

  lemma RewrittenWellFormed(a: Auth, user: Str)
    requires WellFormed(a) && ValidUsername(user)
    ensures WellFormed(RewrittenAuth(a, user)) <==> exists n :: n in a.signed && NotToken(n)
  {
    hide NotToken, ValidUsername, NameOk, FieldOk, IsLowerHex;
    UsernameField(user);
    NothingElseSigned(a.signed);
  }

  /** The signed names but the session token's, in order. */
  function OtherNames(signed: seq<Str>): seq<Str> { Filter((n: Str) => n != "x-amz-security-token", signed) }

  lemma {:induction false} OtherNamesAre(signed: seq<Str>)
    ensures Filter(NotToken, signed) == OtherNames(signed)
  {
    if signed != [] {
      OtherNamesAre(signed[1..]);
    }
  }

  /** The rewrite lane is exactly a field update of the client's header: access key and signed
      list change, scope and signature do not, and the other signed names keep their order. It
      parses back if and only if the client signed some header besides the session token. */
  lemma RewriteIsFieldUpdate(r: Req, a: Auth, user: Str)
    requires WellFormed(a) && ValidUsername(user)
    ensures var h := Rewrite(r, a, user).header;
            && SECURITY_TOKEN !in h
            && Parse(Get(h, AUTHORIZATION)) ==
               if exists n :: n in a.signed && n != "x-amz-security-token"
               then Ok(a.(akid := user, signed := OtherNames(a.signed)))
               else Err(Malformed)
  {
    hide Print, Parse, Rewrite, WellFormed;
    OtherNamesAre(a.signed);
    RewriteHeaders(r, a, user);
    RewrittenWellFormed(a, user);
    var b := RewrittenAuth(a, user);
    PrintParse(b);
    NothingElseSigned(a.signed);
    if !exists n :: n in a.signed && NotToken(n) {
      assert b == a.(akid := user).(signed := []);
      RewriteKeepsRest(a, user);
      EmptyListUnparseable(a.(akid := user));
    }
  }

  lemma RewriteKeepsRest(a: Auth, user: Str)
    requires WellFormed(a) && ValidUsername(user)
    ensures WellFormed(a.(akid := user))
  {
    UsernameField(user);
  }

  /** Signing only the session token makes the rewritten header unparseable. */
  lemma OnlyTokenSigned(r: Req, a: Auth, user: Str)
    requires WellFormed(a) && ValidUsername(user) && a.signed == ["x-amz-security-token"]
    ensures Parse(Get(Rewrite(r, a, user).header, AUTHORIZATION)) == Err(Malformed)
  {
    hide Print, Parse, Rewrite, WellFormed;
    RewriteIsFieldUpdate(r, a, user);
  }

  // ---- Resign never falls back after verification ----

  lemma ResignFails(env: Env, r: Req, user: Str, up: Upstream, now: int)
    ensures Resign(env, r, user, up.host, up.region, now).ok <==> CanonicalQuery.Decodable(r.rawQuery)
  {
    hide Sign;
    SignFailsOnlyOnQuery(env, DelHeader(r, SECURITY_TOKEN), user, Party(RESIGN_SECRET, up.region, SERVICE), up.host,
                         now);
  }

  /** After either verifier has accepted, re-signing cannot fail. */
  lemma VerifiedNeverFallsBack(env: Env, up: Upstream, r: Req, a: Auth, pre: Presigned, p: Party,
                               checked: int, skew: int, user: Str, now: int)
    ensures Verify(env, r, a, p, checked, skew).Ok? ==> Resign(env, r, user, up.host, up.region, now).ok
    ensures VerifyPresigned(env, r, pre, p, checked, skew).Ok? ==>
              Resign(env, r.(rawQuery := StripQuery.Strip(r.rawQuery)), user, up.host, up.region, now).ok
  {
    hide Verify, VerifyPresigned, Resign, CanonicalQuery.Decodable, StripQuery.Strip;
    VerifiedQueryDecodes(env, r, a, pre, p, checked, skew);
    ResignFails(env, r, user, up, now);
    ResignFails(env, r.(rawQuery := StripQuery.Strip(r.rawQuery)), user, up, now);
    if CanonicalQuery.Decodable(r.rawQuery) {
      StripQuery.StripKeepsPairs(r.rawQuery);
    }
  }

  // ---- Every lane and mode ----

  /** The condition under which the outgoing header can be read back: only the rewrite of a header
      that signs nothing but the session token is excluded. */
  predicate Attributable(up: Upstream, r: Req, auth: Option<Auth>) {
    || auth.None?
    || (up.resign && CanonicalQuery.Decodable(r.rawQuery))
    || exists n :: n in auth.value.signed && n != "x-amz-security-token"
  }

  /** What printing an identity with the clock needs: the rewrite lane reads no clock and prints no
      region, and only signing reads the request's header names. */
  predicate Printable(up: Upstream, r: Req, auth: Option<Auth>, now: int, again: int) {
    && (up.resign ==> TokenNames(r.header))
    && (up.resign || auth.None? ==> FieldOk(up.region) && 0 <= now < END_OF_DATES && 0 <= again < END_OF_DATES)
  }

  /** The outgoing header of each shape: rewritten, the client's with the access key replaced and the
      session token no longer signed; synthetic, with a fixed signed list and a signature of zeros;
      re-signed, for the proxy's region and the day of the signing. */
  ghost predicate HeaderIs(env: Env, up: Upstream, r: Req, a: Auth, user: Str, auth: Option<Auth>,
                           now: int, again: int) {
    && a.akid == user
    && if up.resign && CanonicalQuery.Decodable(r.rawQuery) then
         a.date == env.format(now)[..8] && a.region == up.region && a.service == "s3"
       else if auth.Some? then
         a == auth.value.(akid := user, signed := OtherNames(auth.value.signed))
       else
         a == Auth(user, env.format(again)[..8], up.region, "s3", ["host", "x-amz-date"], seq(64, i => '0'))
  }

  /** Attribution in every lane and forward mode: the outgoing Authorization parses back to the
      user, exactly when it is attributable, with the fields of its shape. */
  lemma Attribution(env: Env, up: Upstream, r: Req, user: Str, auth: Option<Auth>, now: int, again: int)
    requires ValidUsername(user) && (auth.Some? ==> WellFormed(auth.value)) && Printable(up, r, auth, now, again)
    ensures var a := Parse(Get(ApplyIdentity(env, up, r, user, auth, now, again).header, AUTHORIZATION));
            && (a.Ok? <==> Attributable(up, r, auth))
            && (a.Ok? ==> HeaderIs(env, up, r, a.value, user, auth, now, again))
  {
    hide Parse, WellFormed, Resign, Rewrite, Synthetic, CanonicalQuery.Decodable, ValidUsername, FieldOk, TokenNames,
      Get, Verify, NotToken, OtherNames;
    ResignFails(env, r, user, up, now);
    var s := Resign(env, r, user, up.host, up.region, now);
    if up.resign && s.ok {
      ResignAttribution(env, r, user, up.host, up.region, now, now, SECOND);
    } else {
      var r' := if up.resign then s.req else r;
      if auth.Some? {
        RewriteIsFieldUpdate(r', auth.value, user);
      } else {
        SyntheticAttribution(env, r', user, up.region, again);
      }
    }
  }

  /** What the upstream acts on besides the headers. */
  predicate SameTarget(r: Req, out: Req) {
    && out.verb == r.verb && out.requestURI == r.requestURI && out.absolutePath == r.absolutePath
    && out.escapedPath == r.escapedPath && out.rawQuery == r.rawQuery && out.contentLength == r.contentLength
  }

  lemma SignKeepsTarget(env: Env, r: Req, akid: Str, p: Party, host: Str, now: int)
    ensures SameTarget(r, Sign(env, r, akid, p, host, now).req)
  {
    hide Print, CanonicalOf, SignedAuth, Get;
  }

  lemma ResignIsClean(env: Env, r: Req, user: Str, host: Str, region: Str, now: int)
    ensures var out := Resign(env, r, user, host, region, now).req;
            SECURITY_TOKEN !in out.header && SameTarget(r, out)
  {
    hide Sign;
    var r' := DelHeader(r, SECURITY_TOKEN);
    SignKeepsTokenOut(env, r', user, Party(RESIGN_SECRET, region, SERVICE), host, now);
    SignKeepsTarget(env, r', user, Party(RESIGN_SECRET, region, SERVICE), host, now);
  }

  /** Whatever the clock, the names or the user: the session token never leaves, and what is asked
      of the upstream stays what the client asked. */
  lemma TokenNeverLeaves(env: Env, up: Upstream, r: Req, user: Str, auth: Option<Auth>, now: int, again: int)
    ensures var out := ApplyIdentity(env, up, r, user, auth, now, again);
            SECURITY_TOKEN !in out.header && SameTarget(r, out)
  {
    hide Resign, Print;
    ResignIsClean(env, r, user, up.host, up.region, now);
  }

  // ---- Which headers arrive ----

  predicate SameHeader(r: Req, out: Req, k: Str) {
    (k in out.header <==> k in r.header) && (k in r.header ==> out.header[k] == r.header[k])
  }

  /** Rewriting writes the identity into one header and drops another. */
  predicate OffRewrite(k: Str) { k != AUTHORIZATION && k != SECURITY_TOKEN }

  /** The other shapes also set the date and the payload hash. */
  predicate OffStamp(k: Str) { OffRewrite(k) && k != AMZ_DATE && k != CONTENT_SHA }

  ghost predicate KeepsAll(r: Req, out: Req, p: Str -> bool) {
    forall k :: p(k) ==> SameHeader(r, out, k)
  }

  /** Date and payload hash where a shape sets them: the clock of the signing or of the synthetic
      header, and the client's hash unless there was none or the header is synthetic. */
  predicate Stamped(env: Env, r: Req, out: Req, synthetic: bool, at: int) {
    && AMZ_DATE in out.header && out.header[AMZ_DATE] == [env.format(at)]
    && CONTENT_SHA in out.header
    && out.header[CONTENT_SHA] ==
       if !synthetic && Get(r.header, CONTENT_SHA) != [] then r.header[CONTENT_SHA] else [UNSIGNED_PAYLOAD]
  }

  predicate IsSynthetic(up: Upstream, r: Req, auth: Option<Auth>) {
    auth.None? && !(up.resign && CanonicalQuery.Decodable(r.rawQuery))
  }

  /** Everything that arrives of a request besides its target and its Authorization value. */
  ghost predicate Delivered(env: Env, up: Upstream, r: Req, out: Req, auth: Option<Auth>, now: int, again: int) {
    && SECURITY_TOKEN !in out.header
    && KeepsAll(r, out, if up.resign || auth.None? then OffStamp else OffRewrite)
    && (up.resign || auth.None? ==>
          Stamped(env, r, out, IsSynthetic(up, r, auth), if IsSynthetic(up, r, auth) then again else now))
    && out.host == if up.resign && up.host != [] then up.host else r.host
  }

  /** Setting the date and the hash, in a request without the session token. */
  lemma PreparedDelivers(env: Env, r: Req, host: Str, now: int)
    requires SECURITY_TOKEN !in r.header
    ensures var out := Prepared(env, r, host, now);
            && SECURITY_TOKEN !in out.header && Stamped(env, r, out, false, now) && KeepsAll(r, out, OffStamp)
            && out.host == if host != [] then host else r.host
  {
    TokenHeaderIsOther();
    assert AMZ_DATE[6] != CONTENT_SHA[6];
  }

  lemma AuthorizationDelivers(env: Env, r: Req, out: Req, value: Str, at: int)
    requires SECURITY_TOKEN !in out.header && Stamped(env, r, out, false, at) && KeepsAll(r, out, OffStamp)
    ensures var out' := SetHeader(out, AUTHORIZATION, value);
            SECURITY_TOKEN !in out'.header && Stamped(env, r, out', false, at) && KeepsAll(r, out', OffStamp)
  {
    TokenHeaderIsOther();
  }

  lemma SignDelivers(env: Env, r: Req, akid: Str, p: Party, host: Str, now: int)
    requires SECURITY_TOKEN !in r.header
    ensures var out := Sign(env, r, akid, p, host, now).req;
            && SECURITY_TOKEN !in out.header && Stamped(env, r, out, false, now) && KeepsAll(r, out, OffStamp)
            && out.host == if host != [] then host else r.host
  {
    hide Print, CanonicalOf, SignedAuth, Prepared, Stamped, KeepsAll;
    PreparedDelivers(env, r, host, now);
    var out := Prepared(env, r, host, now);
    if CanonicalOf(out).Some? {
      AuthorizationDelivers(env, r, out, Print(SignedAuth(env, out, akid, p, now, CanonicalOf(out).value)), now);
    }
  }

  lemma WithoutToken(env: Env, r: Req, out: Req, now: int)
    ensures Stamped(env, DelHeader(r, SECURITY_TOKEN), out, false, now) == Stamped(env, r, out, false, now)
    ensures KeepsAll(DelHeader(r, SECURITY_TOKEN), out, OffStamp) ==> KeepsAll(r, out, OffStamp)
  {
    TokenHeaderIsOther();
  }

  lemma ResignDelivers(env: Env, up: Upstream, r: Req, user: Str, now: int)
    ensures var out := Resign(env, r, user, up.host, up.region, now).req;
            && SECURITY_TOKEN !in out.header && Stamped(env, r, out, false, now) && KeepsAll(r, out, OffStamp)
            && out.host == if up.host != [] then up.host else r.host
  {
    hide Sign, Stamped, KeepsAll;
    var party := Party(RESIGN_SECRET, up.region, SERVICE);
    SignDelivers(env, DelHeader(r, SECURITY_TOKEN), user, party, up.host, now);
    WithoutToken(env, r, Sign(env, DelHeader(r, SECURITY_TOKEN), user, party, up.host, now).req, now);
  }

  lemma SyntheticDelivers(env: Env, r: Req, user: Str, region: Str, now: int)
    ensures var out := Synthetic(env, r, user, region, now);
            && SECURITY_TOKEN !in out.header && Stamped(env, r, out, true, now) && KeepsAll(r, out, OffStamp)
            && out.host == r.host
  {
    hide Print;
    TokenHeaderIsOther();
    assert AMZ_DATE[6] != CONTENT_SHA[6];
  }

  lemma RewriteDelivers(r: Req, a: Auth, user: Str)
    ensures var out := Rewrite(r, a, user);
            SECURITY_TOKEN !in out.header && out.host == r.host && KeepsAll(r, out, OffRewrite)
  {
    hide Print;
    TokenHeaderIsOther();
  }

  lemma StampedStays(env: Env, r: Req, mid: Req, out: Req, at: int)
    requires Stamped(env, r, mid, false, at) && KeepsAll(mid, out, OffRewrite)
    ensures Stamped(env, r, out, false, at)
  {
    TokenHeaderIsOther();
    assert SameHeader(mid, out, AMZ_DATE) && SameHeader(mid, out, CONTENT_SHA);
  }

  lemma SyntheticStamp(env: Env, r: Req, r': Req, out: Req, at: int)
    ensures Stamped(env, r', out, true, at) == Stamped(env, r, out, true, at)
  {
  }

  lemma KeepsBoth(r: Req, mid: Req, out: Req)
    requires KeepsAll(r, mid, OffStamp)
    ensures KeepsAll(mid, out, OffStamp) || KeepsAll(mid, out, OffRewrite) ==> KeepsAll(r, out, OffStamp)
  {
    hide OffRewrite;
    assert forall k :: OffStamp(k) ==> OffRewrite(k);
  }

  /** Every header but those an identity is written into arrives as the client sent it: on the
      rewrite lane all but Authorization and the session token, date and payload hash included. */
  lemma HeadersArrive(env: Env, up: Upstream, r: Req, user: Str, auth: Option<Auth>, now: int, again: int)
    ensures Delivered(env, up, r, ApplyIdentity(env, up, r, user, auth, now, again), auth, now, again)
  {
    hide Resign, Rewrite, Synthetic, Stamped, CanonicalQuery.Decodable, KeepsAll;
    ResignFails(env, r, user, up, now);
    ResignDelivers(env, up, r, user, now);
    var s := Resign(env, r, user, up.host, up.region, now).req;
    var r' := if up.resign then s else r;
    if auth.Some? {
      RewriteDelivers(r', auth.value, user);
      if up.resign {
        StampedStays(env, r, s, Rewrite(s, auth.value, user), now);
        KeepsBoth(r, s, Rewrite(s, auth.value, user));
      }
    } else {
      var out := Synthetic(env, r', user, up.region, again);
      SyntheticDelivers(env, r', user, up.region, again);
      SyntheticStamp(env, r, r', out, again);
      if up.resign {
        KeepsBoth(r, s, out);
      }
    }
  }

  /** What the client signed is what arrives: on the rewrite lane every signed header other than the
      session token keeps its canonical value. */
  lemma SignedHeadersArrive(r: Req, a: Auth, user: Str, n: Str)
    requires CanonicalKey(n) != AUTHORIZATION && CanonicalKey(n) != SECURITY_TOKEN
    ensures CanonicalRequest.HeaderValue(Rewrite(r, a, user), n) == CanonicalRequest.HeaderValue(r, n)
  {
    hide Print, CanonicalKey, CanonicalRequest.Normalize;
  }
}
