/** Safety of the proxy over every interleaved run. */
module ProxySafety {
  import opened Seqs
  import opened Strings
  import opened Primitives
  import opened Http
  import opened Authorization
  import opened SigV4
  import opened Presign
  import opened Forward
  import opened Store
  import opened Proxy
  import opened ProxyTrace
  import opened ProxyInvariant
  import CanonicalQuery
  import CanonicalRequest
  import Exchange
  import Lifetime
  import StripQuery

  // ---- Where a record came from ----

  /** A record in the replayed store was stored at some point, and neither deleted nor overwritten
      since. */
  lemma {:induction false} RecordOrigin(t: seq<Event>, akid: Str) returns (p: nat)
    requires akid in Replay(t)
    ensures p < |t| && t[p].act == Stored(Replay(t)[akid]) && Replay(t)[akid].akid == akid
    ensures forall i :: p < i < |t| ==> t[i].act != Deleted(akid) && !Stores(t[i], akid)
  {
    var n := |t| - 1;
    if Stores(t[n], akid) {
      p := n;
    } else {
      assert akid in Replay(t[..n]) && Replay(t)[akid] == Replay(t[..n])[akid];
      p := RecordOrigin(t[..n], akid);
      assert forall i :: 0 <= i < n ==> t[..n][i] == t[i];
    }
  }

  predicate Stores(e: Event, akid: Str) { e.act.Stored? && e.act.cred.akid == akid }

  /** The credential fetched by event g: issued by an exchange whose own token was accepted as `i`,
      stored as event p, and from then to g neither deleted nor overwritten. */
  ghost predicate Backed(cfg: Config, t: seq<Event>, g: int, c: Credentials, i: Identity, requested: int,
                         q: int, j: int, m: int, p: int) {
    && 0 <= m < p < g <= |t| && t[p].act == Stored(c) && Mints(cfg, t, t[p].id, c, i, requested, q, j, m)
    && forall n :: p < n < g ==> t[n].act != Deleted(c.akid) && !Stores(t[n], c.akid)
  }

  lemma MintsInside(cfg: Config, t: seq<Event>, id: nat, c: Credentials, i: Identity, requested: int,
                    q: int, j: int, m: int)
    requires Mints(cfg, t, id, c, i, requested, q, j, m)
    ensures 0 <= q < j < m < |t| && ValidUsername(i.username) && c.username == i.username
  {
    hide Identifies, ValidUsername, Lifetime.Ttl;
    IdentifiesInside(cfg, t, id, i, requested, q, j);
  }

  lemma FetchedIsBacked(env: Env, cfg: Config, t: seq<Event>, akid: Str, c: Credentials, g: nat)
    returns (i: Identity, requested: int, q: int, j: int, m: int, p: int)
    requires TraceOk(env, cfg, t) && g < |t| && t[g].act == Got(akid, Some(c))
    ensures c.akid == akid && Backed(cfg, t, g, c, i, requested, q, j, m, p)
  {
    hide Justified, Admissible, Provable, Caused, Withheld, ApplyIdentity, Stripped, AuthFor, ValidUsername, Mints,
      Replay, Dispatch;
    assert EventOk(env, cfg, t[..g], t[g]);
    p := RecordOrigin(t[..g], akid);
    assert t[..g][p] == t[p];
    assert EventOk(env, cfg, t[..p], t[p]);
    i, requested, q, j, m :| Mints(cfg, t[..p], t[p].id, c, i, requested, q, j, m);
    MintsInside(cfg, t[..p], t[p].id, c, i, requested, q, j, m);
    MintsStays(cfg, t[..p], t, t[p].id, c, i, requested, q, j, m);
    assert forall n :: 0 <= n < g ==> t[..g][n] == t[n];
  }

  // ---- What is sent ----

  /** The outgoing header names the user, exactly when it can be read back at all, with the fields of
      its shape. */
  ghost predicate Named(env: Env, up: Upstream, out: Req, user: Str, before: Req, auth: Option<Auth>,
                        at: int, again: int) {
    var a := Parse(Get(out.header, "Authorization"));
    && (a.Ok? <==> Attributable(up, before, auth))
    && (a.Ok? ==> HeaderIs(env, up, before, a.value, user, auth, at, again))
  }

  /** The verified header of the SigV4 lane. */
  function VerifiedHeader(why: Why): Option<Auth> {
    match why
    case ByRecord(HeaderProof(a), _) => Some(a)
    case _ => None
  }

  /** On the query lane the seven auth parameters stay behind and everything else is sent; elsewhere
      the query is sent as it came. */
  ghost predicate QuerySent(why: Why, raw: Str, sent: Str) {
    match why
    case ByRecord(QueryProof(_), _) => StripQuery.SentOf(raw, sent)
    case _ => sent == raw
  }

  /** What leaves for the upstream: the client's target and query (less the auth parameters of a
      presigned URL), every header but those an identity is written into, no session token, and the
      user's name. On the rewrite lane every header the client signed arrives with the value it
      signed. */
  ghost predicate Outgoing(env: Env, cfg: Config, e: Event)
    requires e.act.Sent?
  {
    var req, out, auth := e.act.req, e.act.out, VerifiedHeader(e.act.why);
    var before := req.(rawQuery := out.rawQuery);
    && QuerySent(e.act.why, req.rawQuery, out.rawQuery)
    && "X-Amz-Security-Token" !in out.header
    && SameTarget(before, out)
    && e.at <= e.act.again
    && Delivered(env, cfg.up, before, out, auth, e.at, e.act.again)
    && (!cfg.up.resign && auth.Some? ==> forall n :: n in auth.value.signed ==> Arrives(before, out, n))
    && (Printable(cfg.up, before, auth, e.at, e.act.again) ==>
          Named(env, cfg.up, out, e.act.user, before, auth, e.at, e.act.again))
  }

  predicate Arrives(before: Req, out: Req, n: Str) {
    CanonicalKey(n) != AUTHORIZATION && CanonicalKey(n) != SECURITY_TOKEN ==>
      CanonicalRequest.HeaderValue(out, n) == CanonicalRequest.HeaderValue(before, n)
  }

  predicate SentByRecord(e: Event) { e.act.Sent? && e.act.why.ByRecord? }

  lemma SentJustified(env: Env, cfg: Config, t: seq<Event>, k: nat)
    requires TraceOk(env, cfg, t) && k < |t| && t[k].act.Sent?
    ensures Justified(env, cfg, t[..k], t[k].id, t[k].act.lane, t[k].act.req, t[k].act.user, t[k].act.why)
  {
    hide Justified, Admissible, Provable, Caused, Withheld, Issued, ApplyIdentity, Stripped, AuthFor, Replay,
      ValidUsername, Dispatch, Cuts;
    assert EventOk(env, cfg, t[..k], t[k]);
  }

  /** The clearance of a Sent event, as facts about the whole trace. */
  lemma SentProves(env: Env, cfg: Config, t: seq<Event>, k: nat) returns (a: int, g: int, x: int, v: int)
    requires TraceOk(env, cfg, t) && k < |t| && SentByRecord(t[k])
    ensures var act := t[k].act;
            && act.lane == LaneOf(act.why.proof) && act.user == act.why.cred.username
            && Proves(env, cfg, t, t[k].id, act.req, act.why.proof, act.why.cred, a, g, x, v)
    ensures 0 <= a < g < x < v < k
  {
    hide TraceOk, Proves, Vouched, LaneOf;
    var act := t[k].act;
    SentJustified(env, cfg, t, k);
    a, g, x, v :| Proves(env, cfg, t[..k], t[k].id, act.req, act.why.proof, act.why.cred, a, g, x, v);
    ProvesStays(env, cfg, t[..k], t, t[k].id, act.req, act.why.proof, act.why.cred, a, g, x, v);
    ProvesInside(env, cfg, t[..k], t[k].id, act.req, act.why.proof, act.why.cred, a, g, x, v);
  }

  lemma ProvesInside(env: Env, cfg: Config, t: seq<Event>, id: nat, req: Req, proof: Proof, c: Credentials,
                     a: int, g: int, x: int, v: int)
    requires Proves(env, cfg, t, id, req, proof, c, a, g, x, v)
    ensures 0 <= a < g < x < v < |t| && Presents(req, proof) && SessionToken(req, proof) == c.token
    ensures Does(t, a, id, Arrived(req)) && Does(t, g, id, Got(AkidOf(proof), Some(c))) && !Expired(c, t[x].at)
    ensures VerifyProof(env, cfg, req, proof, c, t[v].at).Ok?
  {
    hide Presents, SessionToken, AkidOf, VerifyProof;
  }

  /** The bearer token of a Sent event, as facts about the whole trace. */
  lemma SentVouched(env: Env, cfg: Config, t: seq<Event>, k: nat) returns (a: int, j: int)
    requires TraceOk(env, cfg, t) && k < |t| && t[k].act.Sent? && t[k].act.why.ByToken?
    ensures cfg.acceptBearer && t[k].act.lane == BearerLane
    ensures Vouched(t, t[k].id, t[k].act.req, t[k].act.why.token, t[k].act.user, a, j) && j < k
    ensures ValidUsername(t[k].act.user)
  {
    hide TraceOk, Proves, ValidUsername, Dispatch, LaneOf;
    var act := t[k].act;
    SentJustified(env, cfg, t, k);
    a, j :| Vouched(t[..k], t[k].id, act.req, act.why.token, act.user, a, j);
    AcceptedIsValid(env, cfg, t, j);
  }

  lemma AcceptedIsValid(env: Env, cfg: Config, t: seq<Event>, j: nat)
    requires TraceOk(env, cfg, t) && j < |t| && t[j].act.Accepted?
    ensures ValidUsername(t[j].act.identity.username)
  {
    hide Justified, Admissible, Provable, Caused, Withheld, Issued, ApplyIdentity, Stripped, AuthFor, Replay,
      ValidUsername, Dispatch, Cuts;
    assert EventOk(env, cfg, t[..j], t[j]);
  }

  /** A user the validator accepted, under a name the policy allows. */
  lemma SentUserIsValid(env: Env, cfg: Config, t: seq<Event>, k: nat)
    requires TraceOk(env, cfg, t) && k < |t| && t[k].act.Sent?
    ensures ValidUsername(t[k].act.user)
    ensures t[k].act.why.ByRecord? ==> Presents(t[k].act.req, t[k].act.why.proof)
  {
    hide TraceOk, ValidUsername, Proves, Vouched, Backed, Presents, LaneOf, AkidOf, VerifyProof, SessionToken, Expired;
    var act := t[k].act;
    match act.why
    case ByToken(_) => var a, j := SentVouched(env, cfg, t, k);
    case ByRecord(proof, c) =>
      var a, g, x, v := SentProves(env, cfg, t, k);
      ProvesInside(env, cfg, t, t[k].id, act.req, proof, c, a, g, x, v);
      var i, requested, q, j, m, p := FetchedIsBacked(env, cfg, t, AkidOf(proof), c, g);
      BackedInside(cfg, t, g, c, i, requested, q, j, m, p);
  }

  lemma BackedInside(cfg: Config, t: seq<Event>, g: int, c: Credentials, i: Identity, requested: int,
                     q: int, j: int, m: int, p: int)
    requires Backed(cfg, t, g, c, i, requested, q, j, m, p)
    ensures 0 <= q < j < m < p < g && ValidUsername(i.username) && c.username == i.username
    ensures Does(t, m, t[p].id, Made(c)) && t[p].act == Stored(c)
    ensures var ttl := Lifetime.Ttl(i.expiry, t[m].at, cfg.maxDuration, requested);
            ttl > 0 && c.expiresAt == t[m].at + ttl
  {
    hide Identifies, ValidUsername, Lifetime.Ttl;
    MintsInside(cfg, t, t[p].id, c, i, requested, q, j, m);
  }

  lemma ClearedAuthWellFormed(req: Req, why: Why)
    requires why.ByRecord? ==> Presents(req, why.proof)
    ensures AuthFor(why).Some? ==> WellFormed(AuthFor(why).value)
  {
    hide Parse, WellFormed, ParsePresigned, Dispatch, Get;
    ParsedIsWellFormed(Get(req.header, AUTHORIZATION));
  }

  lemma SentHow(env: Env, cfg: Config, t: seq<Event>, k: nat)
    requires TraceOk(env, cfg, t) && k < |t| && t[k].act.Sent?
    ensures var act := t[k].act;
            && t[k].at <= act.again
            && act.out == ApplyIdentity(env, cfg.up, Stripped(act.req, act.why), act.user, AuthFor(act.why),
                                        t[k].at, act.again)
  {
    hide ApplyIdentity, Justified, Admissible, Provable, Caused, Withheld, Issued, Stripped, AuthFor, Replay,
      ValidUsername, Dispatch;
    assert EventOk(env, cfg, t[..k], t[k]);
  }

  lemma SentArrives(env: Env, up: Upstream, before: Req, user: Str, auth: Option<Auth>, at: int, again: int)
    requires !up.resign && auth.Some?
    ensures var out := ApplyIdentity(env, up, before, user, auth, at, again);
            forall n :: n in auth.value.signed ==> Arrives(before, out, n)
  {
    hide Rewrite, Resign, CanonicalRequest.HeaderValue, CanonicalKey;
    forall n | n in auth.value.signed && CanonicalKey(n) != AUTHORIZATION && CanonicalKey(n) != SECURITY_TOKEN
      ensures Arrives(before, Rewrite(before, auth.value, user), n)
    {
      SignedHeadersArrive(before, auth.value, user, n);
    }
  }

  /** The request handed to applyIdentity is the client's with the query that is sent. */
  lemma StrippedIs(req: Req, why: Why)
    requires why.ByRecord? && why.proof.QueryProof? ==> CanonicalQuery.Decodable(req.rawQuery)
    ensures Stripped(req, why) == req.(rawQuery := Stripped(req, why).rawQuery)
    ensures QuerySent(why, req.rawQuery, Stripped(req, why).rawQuery)
    ensures AuthFor(why) == VerifiedHeader(why)
  {
    hide StripQuery.Strip, StripQuery.SentOf, CanonicalQuery.Decodable;
    if why.ByRecord? && why.proof.QueryProof? {
      StripQuery.StripSends(req.rawQuery);
    }
  }

  lemma SentDecodes(env: Env, cfg: Config, t: seq<Event>, k: nat)
    requires TraceOk(env, cfg, t) && k < |t| && SentByRecord(t[k])
    ensures CanonicalQuery.Decodable(t[k].act.req.rawQuery)
  {
    hide TraceOk, Proves, Presents, SessionToken, Expired, LaneOf, AkidOf, Verify, VerifyPresigned,
      CanonicalQuery.Decodable;
    var act := t[k].act;
    var a, g, x, v := SentProves(env, cfg, t, k);
    ProvesInside(env, cfg, t, t[k].id, act.req, act.why.proof, act.why.cred, a, g, x, v);
    var party := Party(act.why.cred.secret, cfg.up.region, SERVICE);
    match act.why.proof
    case HeaderProof(h) =>
      VerifiedQueryDecodes(env, act.req, h, Presigned(h, [], 0, []), party, t[v].at, cfg.skew);
    case QueryProof(p) => VerifiedQueryDecodes(env, act.req, p.auth, p, party, t[v].at, cfg.skew);
  }

  lemma SentOutgoing(env: Env, cfg: Config, t: seq<Event>, k: nat)
    requires TraceOk(env, cfg, t) && k < |t| && t[k].act.Sent?
    ensures Outgoing(env, cfg, t[k])
  {
    hide TraceOk, ApplyIdentity, Presents, Parse, WellFormed, Attributable, Printable, Get, ValidUsername, AuthFor,
      Stripped, SameTarget, Delivered, Arrives, HeaderIs, QuerySent, VerifiedHeader, CanonicalQuery.Decodable;
    var act := t[k].act;
    var before, auth := Stripped(act.req, act.why), AuthFor(act.why);
    if act.why.ByRecord? {
      SentDecodes(env, cfg, t, k);
    }
    StrippedIs(act.req, act.why);
    SentHow(env, cfg, t, k);
    SentUserIsValid(env, cfg, t, k);
    ClearedAuthWellFormed(act.req, act.why);
    TokenNeverLeaves(env, cfg.up, before, act.user, auth, t[k].at, act.again);
    TargetQuery(before, act.out);
    HeadersArrive(env, cfg.up, before, act.user, auth, t[k].at, act.again);
    if !cfg.up.resign && auth.Some? {
      SentArrives(env, cfg.up, before, act.user, auth, t[k].at, act.again);
    }
    if Printable(cfg.up, before, auth, t[k].at, act.again) {
      Attribution(env, cfg.up, before, act.user, auth, t[k].at, act.again);
    }
  }

  lemma TargetQuery(before: Req, out: Req)
    requires SameTarget(before, out)
    ensures out.rawQuery == before.rawQuery
  {
  }

  ghost predicate AttributionHolds(env: Env, cfg: Config, t: seq<Event>) {
    forall k :: 0 <= k < |t| && t[k].act.Sent? ==> Outgoing(env, cfg, t[k])
  }

  /** Attribution of what is sent, over every interleaved run, strict or not. */
  lemma SentIsAttributed(env: Env, cfg: Config, now: int, steps: seq<Step>)
    ensures AttributionHolds(env, cfg, Run(env, cfg, Init(now), steps).trace)
  {
    hide Run, TraceOk, Outgoing, Chronological, OncePerThread;
    RunHistory(env, cfg, now, steps);
    var t := Run(env, cfg, Init(now), steps).trace;
    forall k | 0 <= k < |t| && t[k].act.Sent? ensures Outgoing(env, cfg, t[k]) {
      SentOutgoing(env, cfg, t, k);
    }
  }

  // ---- Strict-mode safety ----

  /** What the request carries: its bearer token or its signed header in Authorization, or a signed
      query and no Authorization; and the access key and session token of the credential. */
  ghost predicate Carries(req: Req, why: Why) {
    var h := Get(req.header, "Authorization");
    match why
    case ByToken(token) => h == "Bearer " + token
    case ByRecord(HeaderProof(a), c) =>
      && "AWS4-HMAC-SHA256 " <= h && Parse(h) == Ok(a)
      && a.akid == c.akid && Get(req.header, "X-Amz-Security-Token") == c.token
    case ByRecord(QueryProof(p), c) =>
      h == [] && ParsePresigned(req.rawQuery) == Ok(p) && p.auth.akid == c.akid && p.token == c.token
  }

  /** The presented fields are those a signer holding the credential's secret puts there, over the
      request as it arrived, and the date suits the clock. */
  ghost predicate SignedAs(env: Env, cfg: Config, req: Req, proof: Proof, c: Credentials, at: int) {
    var party := Party(c.secret, cfg.up.region, SERVICE);
    match proof
    case HeaderProof(a) =>
      && FreshDate(env, Get(req.header, AMZ_DATE), at, cfg.skew)
      && HonestHeader(env, req, a.akid, a.signed, party) == Some(a)
    case QueryProof(p) => InWindow(env, p, at, cfg.skew) && HonestUrl(env, req, p, party) == Some(p.auth)
  }

  /** What strict mode promises about a request handed to the upstream: it leaves in the name of a
      user whom the validator accepted, either with the request's own bearer token, or with the
      token of an exchange that issued the credential which the request's own Get returned; that
      credential was unexpired, its session token was presented, and the request was signed with its
      secret, when this thread checked them. */
  ghost predicate Authenticated(env: Env, cfg: Config, t: seq<Event>, k: nat)
    requires k < |t| && t[k].act.Sent?
  {
    var act := t[k].act;
    && ValidUsername(act.user) && Outgoing(env, cfg, t[k]) && Carries(act.req, act.why)
    && match act.why
       case ByToken(token) =>
         cfg.acceptBearer && exists a, j :: j < k && Vouched(t, t[k].id, act.req, token, act.user, a, j)
       case ByRecord(proof, c) =>
         && c.akid == AkidOf(proof) && act.user == c.username && SessionToken(act.req, proof) == c.token
         && exists a, g, x, v ::
              && 0 <= v < k && Proves(env, cfg, t, t[k].id, act.req, proof, c, a, g, x, v)
              && SignedAs(env, cfg, act.req, proof, c, t[v].at)
              && exists i, requested, q, j, m, p :: Backed(cfg, t, g, c, i, requested, q, j, m, p)
  }

  lemma VerifiedIsSigned(env: Env, cfg: Config, req: Req, proof: Proof, c: Credentials, at: int)
    requires VerifyProof(env, cfg, req, proof, c, at).Ok?
    ensures SignedAs(env, cfg, req, proof, c, at)
  {
    hide Verify, VerifyPresigned, FreshDate, HonestHeader, InWindow, HonestUrl;
    var party := Party(c.secret, cfg.up.region, SERVICE);
    match proof
    case HeaderProof(a) => AcceptedExactlyWhen(env, req, a, party, at, cfg.skew);
    case QueryProof(p) => AcceptedUrlExactlyWhen(env, req, p, party, at, cfg.skew);
  }

  lemma PresentedIsCarried(req: Req, proof: Proof, c: Credentials)
    requires Presents(req, proof) && AkidOf(proof) == c.akid && SessionToken(req, proof) == c.token
    ensures Carries(req, ByRecord(proof, c))
  {
    hide Parse, ParsePresigned, IsPresigned;
    assert ALGORITHM + SPACE == "AWS4-HMAC-SHA256 ";
  }

  lemma VouchedIsCarried(t: seq<Event>, id: nat, req: Req, token: Str, user: Str, a: int, j: int)
    requires Vouched(t, id, req, token, user, a, j)
    ensures Carries(req, ByToken(token))
  {
    hide Parse, ParsePresigned, IsPresigned;
  }

  lemma SentIsAuthenticated(env: Env, cfg: Config, t: seq<Event>, k: nat)
    requires TraceOk(env, cfg, t) && k < |t| && t[k].act.Sent?
    ensures Authenticated(env, cfg, t, k)
  {
    hide TraceOk, Vouched, Proves, Backed, Outgoing, ValidUsername, AkidOf, LaneOf, Presents, SessionToken, Expired,
      VerifyProof, Carries, SignedAs;
    SentUserIsValid(env, cfg, t, k);
    SentOutgoing(env, cfg, t, k);
    var act := t[k].act;
    match act.why
    case ByToken(token) =>
      var a, j := SentVouched(env, cfg, t, k);
      VouchedIsCarried(t, t[k].id, act.req, token, act.user, a, j);
    case ByRecord(proof, c) =>
      var a, g, x, v := SentProves(env, cfg, t, k);
      ProvesInside(env, cfg, t, t[k].id, act.req, proof, c, a, g, x, v);
      VerifiedIsSigned(env, cfg, act.req, proof, c, t[v].at);
      var i, requested, q, j, m, p := FetchedIsBacked(env, cfg, t, AkidOf(proof), c, g);
      PresentedIsCarried(act.req, proof, c);
  }

  /** Nothing is passed through, and everything sent is authenticated; the clock runs forward and
      no thread does a thing twice, so the acts of a trail are the only ones of their thread. */
  ghost predicate StrictTrace(env: Env, cfg: Config, t: seq<Event>) {
    && Chronological(t) && OncePerThread(t)
    && forall k :: 0 <= k < |t| ==> !t[k].act.PassedThrough? && (t[k].act.Sent? ==> Authenticated(env, cfg, t, k))
  }

  lemma NothingPasses(env: Env, cfg: Config, t: seq<Event>, k: nat)
    requires cfg.strict && TraceOk(env, cfg, t) && k < |t|
    ensures !t[k].act.PassedThrough?
  {
    hide Justified, Admissible, Provable, Caused, Withheld, Issued, ApplyIdentity, Stripped, AuthFor, Replay,
      ValidUsername, Dispatch;
    assert EventOk(env, cfg, t[..k], t[k]);
  }

  /** Strict-mode safety, over every interleaved run. */
  lemma StrictSafety(env: Env, cfg: Config, now: int, steps: seq<Step>)
    requires cfg.strict
    ensures StrictTrace(env, cfg, Run(env, cfg, Init(now), steps).trace)
    ensures Rooted(env, cfg, now, steps)
  {
    hide Run, TraceOk, Authenticated, Chronological, OncePerThread, Rooted;
    RunIsRooted(env, cfg, now, steps);
    RunHistory(env, cfg, now, steps);
    var t := Run(env, cfg, Init(now), steps).trace;
    forall k | 0 <= k < |t| ensures !t[k].act.PassedThrough? && (t[k].act.Sent? ==> Authenticated(env, cfg, t, k)) {
      NothingPasses(env, cfg, t, k);
      if t[k].act.Sent? {
        SentIsAuthenticated(env, cfg, t, k);
      }
    }
  }

  // ---- Revocation ----

  predicate StoredBetween(t: seq<Event>, i: int, k: int, akid: Str) {
    exists p :: 0 <= i < p < k <= |t| && Stores(t[p], akid)
  }

  /** A request forwarded with an access key made its own Get of that key after it arrived, and got
      the record. When the key was deleted before that Get, or before the request arrived, then the
      key was stored again in between. */
  ghost predicate NotRevoked(t: seq<Event>, k: nat)
    requires k < |t| && SentByRecord(t[k])
  {
    var id, akid, req, c := t[k].id, AkidOf(t[k].act.why.proof), t[k].act.req, t[k].act.why.cred;
    && (exists a, g :: a < g < k && Does(t, a, id, Arrived(req)) && Does(t, g, id, Got(akid, Some(c))))
    && (forall i, g | 0 <= i < g < |t| && t[g].id == id && t[g].act.Got? && t[i].act == Deleted(akid) ::
          StoredBetween(t, i, g, akid))
    && (forall i, a | 0 <= i < a < |t| && t[a].id == id && t[a].act.Arrived? && t[i].act == Deleted(akid) ::
          StoredBetween(t, i, k, akid))
  }

  ghost predicate RevocationHolds(t: seq<Event>) {
    forall k :: 0 <= k < |t| && SentByRecord(t[k]) ==> NotRevoked(t, k)
  }

  /** No thread arrives or gets twice. */
  lemma OnlyOne(t: seq<Event>, i: int, j: int)
    requires OncePerThread(t) && 0 <= i < |t| && 0 <= j < |t| && t[i].id == t[j].id
    requires Rank(t[i].act) == Rank(t[j].act)
    ensures i == j
  {
  }

  lemma DeletedThenStored(cfg: Config, t: seq<Event>, g: int, c: Credentials, i: Identity, requested: int,
                          q: int, j: int, m: int, p: int, d: int)
    requires Backed(cfg, t, g, c, i, requested, q, j, m, p) && 0 <= d < g && t[d].act == Deleted(c.akid)
    ensures d < p && StoredBetween(t, d, g, c.akid)
  {
    hide Mints;
    assert Stores(t[p], c.akid);
  }

  lemma SentRevocation(env: Env, cfg: Config, t: seq<Event>, k: nat)
    requires History(env, cfg, t) && k < |t| && SentByRecord(t[k])
    ensures NotRevoked(t, k)
  {
    hide TraceOk, Chronological, OncePerThread, Proves, Backed, Presents, SessionToken, Expired, VerifyProof, LaneOf,
      AkidOf;
    var act := t[k].act;
    var akid, c := AkidOf(act.why.proof), act.why.cred;
    var a, g, x, v := SentProves(env, cfg, t, k);
    ProvesInside(env, cfg, t, t[k].id, act.req, act.why.proof, c, a, g, x, v);
    var i, requested, q, j, m, p := FetchedIsBacked(env, cfg, t, akid, c, g);
    forall d, g' | 0 <= d < g' < |t| && t[g'].id == t[k].id && t[g'].act.Got? && t[d].act == Deleted(akid)
      ensures StoredBetween(t, d, g', akid)
    {
      OnlyOne(t, g, g');
      DeletedThenStored(cfg, t, g, c, i, requested, q, j, m, p, d);
    }
    forall d, a' | 0 <= d < a' < |t| && t[a'].id == t[k].id && t[a'].act.Arrived? && t[d].act == Deleted(akid)
      ensures StoredBetween(t, d, k, akid)
    {
      OnlyOne(t, a, a');
      DeletedThenStored(cfg, t, g, c, i, requested, q, j, m, p, d);
    }
  }

  /** Small-step revocation, over every interleaved run. */
  lemma RevokedStaysOut(env: Env, cfg: Config, now: int, steps: seq<Step>)
    ensures RevocationHolds(Run(env, cfg, Init(now), steps).trace)
  {
    hide Run, History, NotRevoked;
    RunHistory(env, cfg, now, steps);
    var t := Run(env, cfg, Init(now), steps).trace;
    forall k | 0 <= k < |t| && SentByRecord(t[k]) ensures NotRevoked(t, k) {
      SentRevocation(env, cfg, t, k);
    }
  }

  // ---- Lifetime ----

  /** By the clock of the moment, the expiry check x came before the exp of the exchanged token and
      before the life granted at the minting m ended: max_duration, and the DurationSeconds that the
      form states. */
  ghost predicate InLife(cfg: Config, t: seq<Event>, i: Identity, form: Exchange.Form, m: int, x: int)
    requires 0 <= m < |t| && 0 <= x < |t|
  {
    && t[m].at <= t[x].at < i.expiry
    && (0 < cfg.maxDuration ==> t[x].at < t[m].at + cfg.maxDuration * SECOND)
    && (0 < cfg.maxDuration ==> forall n: nat :: form.duration == FormatNat(n) ==> t[x].at < t[m].at + n * SECOND)
  }

  /** Every request that passes the expiry check does so within its credential's life. */
  ghost predicate AdmittedInLife(cfg: Config, t: seq<Event>, x: int)
    requires 0 <= x < |t| && t[x].act.Admitted?
  {
    var c := t[x].act.cred;
    exists g, i, requested, q, j, m, p ::
      && Backed(cfg, t, g, c, i, requested, q, j, m, p)
      && 0 <= m < g < x && Does(t, g, t[x].id, Got(c.akid, Some(c)))
      && 0 <= q < |t| && t[q].act.Asked? && InLife(cfg, t, i, t[q].act.form, m, x)
  }

  /** A presigned URL passes only inside its own window. */
  predicate UrlInWindow(env: Env, cfg: Config, proof: Proof, at: int) {
    proof.QueryProof? && cfg.skew < MAX_INT64 ==>
      var signedAt := env.parse(proof.p.amzDate);
      signedAt.Some? && signedAt.value - cfg.skew <= at <= signedAt.value + proof.p.expires
  }

  /** Every request that passes verification passed the expiry check before, and is signed. */
  ghost predicate ProvedInWindow(env: Env, cfg: Config, t: seq<Event>, v: int)
    requires 0 <= v < |t| && t[v].act.Proved?
  {
    var c := t[v].act.cred;
    exists req, proof, a, g, x ::
      && x < v && Passes(t, t[v].id, req, proof, c, a, g, x)
      && SignedAs(env, cfg, req, proof, c, t[v].at) && UrlInWindow(env, cfg, proof, t[v].at)
  }

  /** Every forwarded request passed both, in this order. */
  ghost predicate SentInLife(env: Env, cfg: Config, t: seq<Event>, k: int)
    requires 0 <= k < |t| && SentByRecord(t[k])
  {
    var c := t[k].act.why.cred;
    exists x, v :: 0 <= x < v < k && Does(t, x, t[k].id, Admitted(c)) && Does(t, v, t[k].id, Proved(c))
                   && t[x].at <= t[v].at <= t[k].at
  }

  ghost predicate LifetimeHolds(env: Env, cfg: Config, t: seq<Event>) {
    && (forall x :: 0 <= x < |t| && t[x].act.Admitted? ==> AdmittedInLife(cfg, t, x))
    && (forall v :: 0 <= v < |t| && t[v].act.Proved? ==> ProvedInWindow(env, cfg, t, v))
    && (forall k :: 0 <= k < |t| && SentByRecord(t[k]) ==> SentInLife(env, cfg, t, k))
  }

  lemma WindowHolds(env: Env, cfg: Config, req: Req, proof: Proof, c: Credentials, at: int)
    requires Presents(req, proof) && VerifyProof(env, cfg, req, proof, c, at).Ok?
    ensures UrlInWindow(env, cfg, proof, at)
  {
    hide Verify, VerifyPresigned, Dispatch, Parse, ParsePresigned;
    if proof.QueryProof? && cfg.skew < MAX_INT64 {
      AcceptedInWindow(env, req, proof.p, Party(c.secret, cfg.up.region, SERVICE), at, cfg.skew);
    }
  }

  lemma AdmittedIsAdmissible(env: Env, cfg: Config, t: seq<Event>, x: nat)
    requires TraceOk(env, cfg, t) && x < |t|
    ensures t[x].act.Admitted? ==> Admissible(t[..x], t[x].id, t[x].act.cred, t[x].at)
    ensures t[x].act.Proved? ==> Provable(env, cfg, t[..x], t[x].id, t[x].act.cred, t[x].at)
  {
    hide Justified, Admissible, Provable, Caused, Withheld, Issued, ApplyIdentity, Stripped, AuthFor, Replay,
      ValidUsername, Dispatch;
    assert EventOk(env, cfg, t[..x], t[x]);
  }

  lemma LifeOf(env: Env, cfg: Config, t: seq<Event>, x: nat)
    requires History(env, cfg, t) && x < |t| && t[x].act.Admitted?
    ensures AdmittedInLife(cfg, t, x)
  {
    hide TraceOk, Chronological, OncePerThread, Fetches, Backed, SessionToken, AkidOf, Expired, InLife;
    var id, c := t[x].id, t[x].act.cred;
    AdmittedIsAdmissible(env, cfg, t, x);
    var req, proof, a, g :|
      Fetches(t[..x], id, req, proof, Some(c), a, g) && !Expired(c, t[x].at) && SessionToken(req, proof) == c.token;
    FetchesStays(t[..x], t, id, req, proof, Some(c), a, g);
    FetchesInside(t[..x], id, req, proof, Some(c), a, g);
    FetchesGot(t, id, req, proof, Some(c), a, g);
    var i, requested, q, j, m, p := FetchedIsBacked(env, cfg, t, AkidOf(proof), c, g);
    BackedLife(cfg, t, g, c, i, requested, q, j, m, p, x);
  }

  /** A backed credential that is unexpired at x is within its life there. */
  lemma BackedLife(cfg: Config, t: seq<Event>, g: int, c: Credentials, i: Identity, requested: int,
                   q: int, j: int, m: int, p: int, x: int)
    requires Backed(cfg, t, g, c, i, requested, q, j, m, p) && g < x < |t| && Chronological(t) && !Expired(c, t[x].at)
    ensures 0 <= m < g && 0 <= q < |t| && t[q].act.Asked? && InLife(cfg, t, i, t[q].act.form, m, x)
  {
    hide Backed, Does, Lifetime.Ttl, ValidUsername, Exchange.CheckForm, FormatNat;
    BackedInside(cfg, t, g, c, i, requested, q, j, m, p);
    BackedForm(cfg, t, g, c, i, requested, q, j, m, p);
    forall n: nat | t[q].act.form.duration == FormatNat(n) ensures requested == n && n > 0 {
      Exchange.RequestedIsPrinted(t[q].act.form, cfg.allowlist, n);
    }
    Lifetime.WithinToken(i.expiry, t[m].at, cfg.maxDuration, requested);
    if 0 < cfg.maxDuration {
      Lifetime.MintedLifetimeBounded(i.expiry, t[m].at, cfg.maxDuration, requested);
    }
  }

  lemma BackedForm(cfg: Config, t: seq<Event>, g: int, c: Credentials, i: Identity, requested: int,
                   q: int, j: int, m: int, p: int)
    requires Backed(cfg, t, g, c, i, requested, q, j, m, p)
    ensures 0 <= q < |t| && t[q].act.Asked?
    ensures var form := Exchange.CheckForm(t[q].act.form, cfg.allowlist); form.Proceed? && form.requested == requested
  {
    hide ValidUsername, Lifetime.Ttl, Exchange.CheckForm;
  }

  lemma FetchesGot(t: seq<Event>, id: nat, req: Req, proof: Proof, found: Option<Credentials>, a: int, g: int)
    requires Fetches(t, id, req, proof, found, a, g)
    ensures Does(t, g, id, Got(AkidOf(proof), found))
  {
    hide Presents, AkidOf;
  }

  lemma WindowOf(env: Env, cfg: Config, t: seq<Event>, v: nat)
    requires TraceOk(env, cfg, t) && v < |t| && t[v].act.Proved?
    ensures ProvedInWindow(env, cfg, t, v)
  {
    hide TraceOk, Passes, VerifyProof, Presents, SignedAs, UrlInWindow;
    var id, c := t[v].id, t[v].act.cred;
    AdmittedIsAdmissible(env, cfg, t, v);
    var req, proof, a, g, x :|
      Passes(t[..v], id, req, proof, c, a, g, x) && VerifyProof(env, cfg, req, proof, c, t[v].at).Ok?;
    PassesStays(t[..v], t, id, req, proof, c, a, g, x);
    PassesInside(t[..v], id, req, proof, c, a, g, x);
    PassesArrives(t, id, req, proof, c, a, g, x);
    VerifiedIsSigned(env, cfg, req, proof, c, t[v].at);
    WindowHolds(env, cfg, req, proof, c, t[v].at);
  }

  lemma OrderOf(env: Env, cfg: Config, t: seq<Event>, k: nat)
    requires History(env, cfg, t) && k < |t| && SentByRecord(t[k])
    ensures SentInLife(env, cfg, t, k)
  {
    hide TraceOk, OncePerThread, Fetches, Presents, SessionToken, VerifyProof, LaneOf, AkidOf, Expired;
    var a, g, x, v := SentProves(env, cfg, t, k);
  }

  /** Lifetime, over every interleaved run: of every request that passes the expiry check, every one
      that passes verification, and every one that is sent. */
  lemma LifetimeBounded(env: Env, cfg: Config, now: int, steps: seq<Step>)
    ensures LifetimeHolds(env, cfg, Run(env, cfg, Init(now), steps).trace)
  {
    hide Run, TraceOk, Chronological, OncePerThread, AdmittedInLife, ProvedInWindow, SentInLife;
    RunHistory(env, cfg, now, steps);
    var t := Run(env, cfg, Init(now), steps).trace;
    forall x | 0 <= x < |t| && t[x].act.Admitted? ensures AdmittedInLife(cfg, t, x) {
      LifeOf(env, cfg, t, x);
    }
    forall v | 0 <= v < |t| && t[v].act.Proved? ensures ProvedInWindow(env, cfg, t, v) {
      WindowOf(env, cfg, t, v);
    }
    forall k | 0 <= k < |t| && SentByRecord(t[k]) ensures SentInLife(env, cfg, t, k) {
      OrderOf(env, cfg, t, k);
    }
  }

  // ---- Refusals ----

  /** What a refusal after the checks of the record means, by its label. */
  ghost predicate LabelMeans(env: Env, cfg: Config, req: Req, proof: Proof, c: Credentials, at: int, result: Label) {
    var party := Party(c.secret, cfg.up.region, "s3");
    match proof
    case HeaderProof(a) => (
      match result
      case TooSkewed => RefusedAs(env, req, a, party, at, cfg.skew, Skew)
      case BadScope => RefusedAs(env, req, a, party, at, cfg.skew, Scope)
      case NoDate => RefusedAs(env, req, a, party, at, cfg.skew, MissingDate)
      case BadSyntax => RefusedAs(env, req, a, party, at, cfg.skew, Malformed)
      case Mismatch => RefusedAs(env, req, a, party, at, cfg.skew, SignatureMismatch)
      case _ => false)
    case QueryProof(p) => (
      match result
      case UrlExpired => UrlRefusedAs(env, req, p, party, at, cfg.skew, PresignExpired)
      case TooSkewed => UrlRefusedAs(env, req, p, party, at, cfg.skew, Skew)
      case BadSyntax =>
        || UrlRefusedAs(env, req, p, party, at, cfg.skew, Scope)
        || UrlRefusedAs(env, req, p, party, at, cfg.skew, Malformed)
      case Mismatch => UrlRefusedAs(env, req, p, party, at, cfg.skew, SignatureMismatch)
      case _ => false)
  }

  lemma ErrorLabelMeans(env: Env, cfg: Config, req: Req, proof: Proof, c: Credentials, at: int)
    ensures var v := VerifyProof(env, cfg, req, proof, c, at);
            v.Err? ==> LabelMeans(env, cfg, req, proof, c, at, ErrorLabel(proof, v.error))
  {
    hide Verify, VerifyPresigned, RefusedAs, UrlRefusedAs;
    var party := Party(c.secret, cfg.up.region, SERVICE);
    match proof
    case HeaderProof(a) =>
      RefusalMeans(env, req, a, party, at, cfg.skew);
      NeverPresignExpired(env, req, a, party, at, cfg.skew);
    case QueryProof(p) =>
      UrlRefusalMeans(env, req, p, party, at, cfg.skew);
      NeverMissingDate(env, req, p, party, at, cfg.skew);
  }

  lemma NeverPresignExpired(env: Env, r: Req, a: Auth, p: Party, now: int, skew: int)
    ensures Verify(env, r, a, p, now, skew) != Err(PresignExpired)
  {
    hide Verify, FreshDate, HonestHeader, Get, CanonicalQuery.Decodable;
    RefusalMeans(env, r, a, p, now, skew);
  }

  lemma NeverMissingDate(env: Env, r: Req, pre: Presigned, p: Party, now: int, skew: int)
    ensures VerifyPresigned(env, r, pre, p, now, skew) != Err(MissingDate)
  {
    hide VerifyPresigned, InWindow, HonestUrl, CanonicalQuery.Decodable;
    UrlRefusalMeans(env, r, pre, p, now, skew);
  }

  /** The thread's own request, with its own record, failed the check that the label names. */
  ghost predicate FailedCheck(env: Env, cfg: Config, t: seq<Event>, id: nat, at: int, lane: Lane, result: Label) {
    exists req, proof, c, a, g, x ::
      && Passes(t, id, req, proof, c, a, g, x) && (lane == HeaderLane <==> proof.HeaderProof?) && lane != BearerLane
      && LabelMeans(env, cfg, req, proof, c, at, result)
  }

  lemma DisprovedFailed(env: Env, cfg: Config, t: seq<Event>, id: nat, at: int, lane: Lane, result: Label)
    requires Disproved(env, cfg, t, id, at, lane, result)
    ensures FailedCheck(env, cfg, t, id, at, lane, result)
  {
    hide Passes, VerifyProof, ErrorLabel, LabelMeans;
    var req, proof, c, a, g, x :|
      && Passes(t, id, req, proof, c, a, g, x) && lane == LaneOf(proof)
      && var v := VerifyProof(env, cfg, req, proof, c, at);
         v.Err? && result == ErrorLabel(proof, v.error);
    ErrorLabelMeans(env, cfg, req, proof, c, at);
  }

  /** A request is refused only for its cause, and an exchange fails only for its cause. */
  ghost predicate RefusalsHold(env: Env, cfg: Config, t: seq<Event>) {
    forall k :: 0 <= k < |t| ==>
      && (t[k].act.Rejected? ==> RefusedRightly(env, cfg, t[..k], t[k].id, t[k].at, t[k].act.lane, t[k].act.result))
      && (t[k].act.Answered? ==> Withheld(cfg, t[..k], t[k].id, t[k].at, t[k].act.code, t[k].act.cause))
  }

  ghost predicate RefusedRightly(env: Env, cfg: Config, t: seq<Event>, id: nat, at: int, lane: Lane, result: Label) {
    && Caused(env, cfg, t, id, at, lane, result)
    && (result in {TooSkewed, BadScope, NoDate, Mismatch, UrlExpired} ==>
          FailedCheck(env, cfg, t, id, at, lane, result))
    && (result == BadSyntax ==> Unreadable(t, id, lane, result) || FailedCheck(env, cfg, t, id, at, lane, result))
  }

  lemma CausedRightly(env: Env, cfg: Config, t: seq<Event>, id: nat, at: int, lane: Lane, result: Label)
    requires Caused(env, cfg, t, id, at, lane, result)
    ensures RefusedRightly(env, cfg, t, id, at, lane, result)
  {
    hide Does, Fetches, Presents, Dispatch, SessionToken, Expired, LaneOf, Disproved, FailedCheck, Unparsed;
    if Disproved(env, cfg, t, id, at, lane, result) {
      DisprovedFailed(env, cfg, t, id, at, lane, result);
    }
  }

  lemma EventIsOk(env: Env, cfg: Config, t: seq<Event>, k: nat)
    requires TraceOk(env, cfg, t) && k < |t|
    ensures t[k].act.Rejected? ==> Caused(env, cfg, t[..k], t[k].id, t[k].at, t[k].act.lane, t[k].act.result)
    ensures t[k].act.Answered? ==> Withheld(cfg, t[..k], t[k].id, t[k].at, t[k].act.code, t[k].act.cause)
    ensures t[k].act.Swept? ==> exists n :: Cuts(cfg, t[..k], t[k].id, t[k].act.cutoff, n)
  {
    hide Justified, Admissible, Provable, Caused, Withheld, Issued, ApplyIdentity, Stripped, AuthFor, Replay,
      ValidUsername, Dispatch, Cuts;
    assert EventOk(env, cfg, t[..k], t[k]);
  }

  /** Refusals, over every interleaved run: for the failed check that the trace shows, and where the
      cause comes from outside, on the grounds of the verdict, store error or draw of its own step. */
  lemma RefusedForCause(env: Env, cfg: Config, now: int, steps: seq<Step>)
    ensures RefusalsHold(env, cfg, Run(env, cfg, Init(now), steps).trace)
    ensures Rooted(env, cfg, now, steps)
  {
    hide Run, TraceOk, Caused, RefusedRightly, Withheld, Cuts, Chronological, OncePerThread, Rooted;
    RunIsRooted(env, cfg, now, steps);
    RunHistory(env, cfg, now, steps);
    var t := Run(env, cfg, Init(now), steps).trace;
    forall k | 0 <= k < |t|
      ensures t[k].act.Rejected? ==>
                RefusedRightly(env, cfg, t[..k], t[k].id, t[k].at, t[k].act.lane, t[k].act.result)
      ensures t[k].act.Answered? ==> Withheld(cfg, t[..k], t[k].id, t[k].at, t[k].act.code, t[k].act.cause)
    {
      EventIsOk(env, cfg, t, k);
      if t[k].act.Rejected? {
        CausedRightly(env, cfg, t[..k], t[k].id, t[k].at, t[k].act.lane, t[k].act.result);
      }
    }
  }

  // ---- Sweeps ----

  /** A sweep's cutoff was read by its own thread, the retention before the clock of that moment, and
      right after it exactly the records that expired before the cutoff are gone. */
  ghost predicate SweepHolds(cfg: Config, t: seq<Event>, k: nat)
    requires k < |t| && t[k].act.Swept?
  {
    var cutoff, before, after := t[k].act.cutoff, Replay(t[..k]), Replay(t[..k + 1]);
    && (exists n :: 0 <= n < k && Does(t, n, t[k].id, CutoffRead(cutoff)) && cutoff == t[n].at - cfg.retention)
    && (forall akid :: akid in after <==> akid in before && before[akid].expiresAt >= cutoff)
    && (forall akid :: akid in after ==> after[akid] == before[akid])
  }

  ghost predicate SweepsHold(cfg: Config, t: seq<Event>) {
    forall k :: 0 <= k < |t| && t[k].act.Swept? ==> SweepHolds(cfg, t, k)
  }

  lemma SweepOf(env: Env, cfg: Config, t: seq<Event>, k: nat)
    requires TraceOk(env, cfg, t) && k < |t| && t[k].act.Swept?
    ensures SweepHolds(cfg, t, k)
  {
    hide TraceOk, Replay, Caused, Withheld;
    EventIsOk(env, cfg, t, k);
    var n :| Cuts(cfg, t[..k], t[k].id, t[k].act.cutoff, n);
    assert t[..k][n] == t[n] && t[..k + 1] == t[..k] + [t[k]];
    ReplaySnoc(t[..k], t[k]);
    forall akid
      ensures akid in Replay(t[..k + 1]) <==>
                akid in Replay(t[..k]) && Replay(t[..k])[akid].expiresAt >= t[k].act.cutoff
      ensures akid in Replay(t[..k + 1]) ==> Replay(t[..k + 1])[akid] == Replay(t[..k])[akid]
    {
      SweptMeans(Replay(t[..k]), t[k].act.cutoff, akid);
    }
  }

  /** Sweeps, over every interleaved run; the store of the moment is what the events left. */
  lemma SweepsDelete(env: Env, cfg: Config, now: int, steps: seq<Step>)
    ensures SweepsHold(cfg, Run(env, cfg, Init(now), steps).trace)
    ensures Rooted(env, cfg, now, steps)
  {
    hide Run, TraceOk, SweepHolds, Chronological, OncePerThread, Rooted;
    RunIsRooted(env, cfg, now, steps);
    RunHistory(env, cfg, now, steps);
    var t := Run(env, cfg, Init(now), steps).trace;
    forall k | 0 <= k < |t| && t[k].act.Swept? ensures SweepHolds(cfg, t, k) {
      SweepOf(env, cfg, t, k);
    }
  }

  /** So a bearer request is refused for its token only if the validator's verdict on it, policy
      included, was that refusal; and for the store only if the store failed. */
  lemma RefusedByVerdict(env: Env, cfg: Config, now: int, steps: seq<Step>, k: nat, lane: Lane, e: Exchange.TokenError)
    returns (n: nat)
    requires var t := Run(env, cfg, Init(now), steps).trace; k < |t| && t[k].act == Rejected(lane, TokenRefused(e))
    ensures n < |steps| && steps[n].ValidateBearer? && Refuses(steps[n].verdict, e)
    ensures steps[n].id == Run(env, cfg, Init(now), steps).trace[k].id
  {
    hide Run, Init, MoveOf, Replay, Refuses;
    n := EventsAreSteps(env, cfg, now, steps, k);
  }

  // ---- Expired URLs ----

  /** Once a URL has been refused as expired, no request with the same query passes verification on
      the query lane any more, whatever else it carries: every one that is forwarded had passed
      before. */
  ghost predicate UrlExpiryHolds(t: seq<Event>) {
    forall k, a, n | 0 <= a < k < |t| && 0 <= n < |t| && t[k].act == Rejected(QueryLane, UrlExpired)
                     && SameUrl(t, k, a, n) ::
      ProvedBefore(t, t[n].id, k)
  }

  /** Thread of event k arrived, as event a, with the query of the URL that event n forwards. */
  ghost predicate SameUrl(t: seq<Event>, k: int, a: int, n: int)
    requires 0 <= k < |t| && 0 <= a < |t| && 0 <= n < |t|
  {
    && SentByRecord(t[n]) && t[n].act.why.proof.QueryProof?
    && t[a].id == t[k].id && t[a].act.Arrived? && t[a].act.req.rawQuery == t[n].act.req.rawQuery
  }

  ghost predicate ProvedBefore(t: seq<Event>, id: nat, k: int) {
    exists v :: 0 <= v < k <= |t| && t[v].id == id && t[v].act.Proved?
  }

  lemma UrlDisproved(env: Env, cfg: Config, t: seq<Event>, k: nat)
    requires TraceOk(env, cfg, t) && k < |t| && t[k].act == Rejected(QueryLane, UrlExpired)
    ensures Disproved(env, cfg, t[..k], t[k].id, t[k].at, QueryLane, UrlExpired)
  {
    hide Does, Vouched, Presents, Dispatch, Fetches, Disproved, Justified, Admissible, Provable, Withheld, Issued,
      Replay, ApplyIdentity, Stripped, AuthFor, ValidUsername, SessionToken, Expired, LaneOf;
    assert EventOk(env, cfg, t[..k], t[k]);
  }

  /** On the query lane, the expired label means a clock past the window. */
  lemma ExpiredLabel(env: Env, cfg: Config, req: Req, proof: Proof, c: Credentials, at: int)
    requires LaneOf(proof) == QueryLane
    ensures var v := VerifyProof(env, cfg, req, proof, c, at);
            v.Err? && UrlExpired == ErrorLabel(proof, v.error) ==>
              && proof.QueryProof? && env.parse(proof.p.amzDate).Some?
              && at > env.parse(proof.p.amzDate).value + proof.p.expires
  {
    hide VerifyPresigned, Verify;
    WindowEnds(env, req, proof.p, Party(c.secret, cfg.up.region, SERVICE), at, cfg.skew);
  }

  lemma PassesArrives(t: seq<Event>, id: nat, req: Req, proof: Proof, c: Credentials, a: int, g: int, x: int)
    requires Passes(t, id, req, proof, c, a, g, x)
    ensures Does(t, a, id, Arrived(req)) && Presents(req, proof)
  {
    hide Presents, SessionToken, AkidOf, Expired;
  }

  /** What an expired refusal says about the request that got it. */
  lemma RefusedUrl(env: Env, cfg: Config, t: seq<Event>, k: nat) returns (a: int, req: Req, p: Presigned)
    requires TraceOk(env, cfg, t) && k < |t| && t[k].act == Rejected(QueryLane, UrlExpired)
    ensures 0 <= a < k && Does(t, a, t[k].id, Arrived(req)) && Presents(req, QueryProof(p))
    ensures env.parse(p.amzDate).Some? && t[k].at > env.parse(p.amzDate).value + p.expires
  {
    hide TraceOk, Passes, VerifyProof, ErrorLabel, LaneOf, Presents;
    UrlDisproved(env, cfg, t, k);
    var proof, c, g, x;
    req, proof, c, a, g, x :|
      && Passes(t[..k], t[k].id, req, proof, c, a, g, x) && QueryLane == LaneOf(proof)
      && var v := VerifyProof(env, cfg, req, proof, c, t[k].at);
         v.Err? && UrlExpired == ErrorLabel(proof, v.error);
    ExpiredLabel(env, cfg, req, proof, c, t[k].at);
    PassesArrives(t[..k], t[k].id, req, proof, c, a, g, x);
    p := proof.p;
  }

  lemma SamePresented(req1: Req, p1: Presigned, req2: Req, p2: Presigned)
    requires Presents(req1, QueryProof(p1)) && Presents(req2, QueryProof(p2)) && req1.rawQuery == req2.rawQuery
    ensures p1 == p2
  {
    hide Parse, ParsePresigned, Dispatch;
  }

  lemma ExpiredUrl(env: Env, cfg: Config, t: seq<Event>, k: nat, a: nat, n: nat)
    requires History(env, cfg, t) && a < k < |t| && n < |t|
    requires t[k].act == Rejected(QueryLane, UrlExpired) && SameUrl(t, k, a, n)
    ensures ProvedBefore(t, t[n].id, k)
  {
    hide TraceOk, Presents, VerifyPresigned, Verify, SessionToken, AkidOf, Expired, LaneOf;
    var act := t[n].act;
    var a', req, p := RefusedUrl(env, cfg, t, k);
    OnlyOne(t, a, a');
    var b, g, x, v := SentProves(env, cfg, t, n);
    ProvesInside(env, cfg, t, t[n].id, act.req, act.why.proof, act.why.cred, b, g, x, v);
    SamePresented(req, p, act.req, act.why.proof.p);
    WindowEnds(env, act.req, p, Party(act.why.cred.secret, cfg.up.region, SERVICE), t[v].at, cfg.skew);
    assert v < k;
  }

  /** Expired URLs stay out, over every interleaved run. */
  lemma ExpiredUrlStaysOut(env: Env, cfg: Config, now: int, steps: seq<Step>)
    ensures UrlExpiryHolds(Run(env, cfg, Init(now), steps).trace)
  {
    hide Run, History, SameUrl, ProvedBefore;
    RunHistory(env, cfg, now, steps);
    var t := Run(env, cfg, Init(now), steps).trace;
    forall k, a, n | 0 <= a < k < |t| && 0 <= n < |t| && t[k].act == Rejected(QueryLane, UrlExpired)
                     && SameUrl(t, k, a, n)
      ensures ProvedBefore(t, t[n].id, k)
    {
      ExpiredUrl(env, cfg, t, k, a, n);
    }
  }

  // ---- Resigning ----

  /** A request cleared by a credential can be re-signed at any time, so the fallback of resign mode
      is reachable on the bearer lane only. */
  ghost predicate ResignHolds(env: Env, cfg: Config, t: seq<Event>) {
    forall k, at: int ::
      0 <= k < |t| && SentByRecord(t[k]) ==>
        Resign(env, Stripped(t[k].act.req, t[k].act.why), t[k].act.user, cfg.up.host, cfg.up.region, at).ok
  }

  lemma ResignFallbackOnlyOnBearer(env: Env, cfg: Config, now: int, steps: seq<Step>)
    ensures ResignHolds(env, cfg, Run(env, cfg, Init(now), steps).trace)
  {
    hide Run, History, Resign, Stripped;
    RunHistory(env, cfg, now, steps);
    var t := Run(env, cfg, Init(now), steps).trace;
    forall k, at: int | 0 <= k < |t| && SentByRecord(t[k])
      ensures Resign(env, Stripped(t[k].act.req, t[k].act.why), t[k].act.user, cfg.up.host, cfg.up.region, at).ok
    {
      SentResigns(env, cfg, t, k, at);
    }
  }

  lemma SentResigns(env: Env, cfg: Config, t: seq<Event>, k: nat, at: int)
    requires History(env, cfg, t) && k < |t| && SentByRecord(t[k])
    ensures Resign(env, Stripped(t[k].act.req, t[k].act.why), t[k].act.user, cfg.up.host, cfg.up.region, at).ok
  {
    hide TraceOk, Chronological, OncePerThread, Presents, Proves, Resign, Verify, VerifyPresigned, StripQuery.Strip;
    var act := t[k].act;
    var c := act.why.cred;
    var a, g, x, v := SentProves(env, cfg, t, k);
    ProvesInside(env, cfg, t, t[k].id, act.req, act.why.proof, c, a, g, x, v);
    var party := Party(c.secret, cfg.up.region, SERVICE);
    match act.why.proof
    case HeaderProof(h) =>
      VerifiedNeverFallsBack(env, cfg.up, act.req, h, Presigned(h, [], 0, []), party, t[v].at, cfg.skew, act.user, at);
    case QueryProof(p) =>
      VerifiedNeverFallsBack(env, cfg.up, act.req, p.auth, p, party, t[v].at, cfg.skew, act.user, at);
  }
}
