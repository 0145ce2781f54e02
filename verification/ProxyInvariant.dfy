/** What every thread of the proxy has behind it: the trail of its own acts that led to where it is.
    Every move of every thread keeps it. */
module ProxyInvariant {
  import opened Seqs
  import opened Strings
  import opened Primitives
  import opened Http
  import opened Authorization
  import opened Presign
  import opened Forward
  import opened Store
  import opened Proxy
  import opened ProxyTrace
  import Exchange
  import Lifetime

  // ---- What one thread did ----

  /** Thread `id` did `act`, as event i. */
  ghost predicate Does(t: seq<Event>, i: int, id: nat, act: Act) {
    0 <= i < |t| && t[i].id == id && t[i].act == act
  }

  /** The request arrived, and the validator accepted its own bearer token as the user. */
  ghost predicate Vouched(t: seq<Event>, id: nat, req: Req, token: Str, user: Str, a: int, j: int) {
    && a < j < |t| && Does(t, a, id, Arrived(req)) && Dispatch(req) == ToBearer(token)
    && t[j].id == id && t[j].act.Accepted? && t[j].act.token == token && t[j].act.identity.username == user
  }

  /** The request arrived, and its own Get of the access key it presents was answered. */
  ghost predicate Fetches(t: seq<Event>, id: nat, req: Req, proof: Proof, found: Option<Credentials>, a: int, g: int) {
    a < g && Presents(req, proof) && Does(t, a, id, Arrived(req)) && Does(t, g, id, Got(AkidOf(proof), found))
  }

  /** Then its record was checked: unexpired by the clock of that moment, session token presented. */
  ghost predicate Passes(t: seq<Event>, id: nat, req: Req, proof: Proof, c: Credentials, a: int, g: int, x: int) {
    && Fetches(t, id, req, proof, Some(c), a, g) && g < x && Does(t, x, id, Admitted(c))
    && !Expired(c, t[x].at) && SessionToken(req, proof) == c.token
  }

  /** Then its signature was verified, with the clock of that moment. */
  ghost predicate Proves(env: Env, cfg: Config, t: seq<Event>, id: nat, req: Req, proof: Proof, c: Credentials,
                         a: int, g: int, x: int, v: int) {
    && Passes(t, id, req, proof, c, a, g, x) && x < v && Does(t, v, id, Proved(c))
    && VerifyProof(env, cfg, req, proof, c, t[v].at).Ok?
  }

  /** A form that passed the checks. */
  ghost predicate Orders(cfg: Config, t: seq<Event>, id: nat, q: int, token: Str, requested: int) {
    && 0 <= q < |t| && t[q].id == id && t[q].act.Asked?
    && Exchange.CheckForm(t[q].act.form, cfg.allowlist) == Exchange.Proceed(token, requested)
  }

  /** Then its token was accepted as the identity. */
  ghost predicate Identifies(cfg: Config, t: seq<Event>, id: nat, i: Identity, requested: int, q: int, j: int) {
    && 0 <= q < j < |t| && t[j].id == id && t[j].act.Accepted? && t[j].act.identity == i
    && Orders(cfg, t, id, q, t[j].act.token, requested) && ValidUsername(i.username)
  }

  /** Then a credential was minted for that identity, with the effective lifetime of that moment. */
  ghost predicate Mints(cfg: Config, t: seq<Event>, id: nat, c: Credentials, i: Identity, requested: int,
                        q: int, j: int, m: int) {
    && Identifies(cfg, t, id, i, requested, q, j) && j < m && Does(t, m, id, Made(c))
    && c.username == i.username && c.issuer == i.issuer
    && var ttl := Lifetime.Ttl(i.expiry, t[m].at, cfg.maxDuration, requested);
       ttl > 0 && c.expiresAt == t[m].at + ttl
  }

  ghost predicate Issued(cfg: Config, t: seq<Event>, id: nat, c: Credentials) {
    exists i, requested, q, j, m :: Mints(cfg, t, id, c, i, requested, q, j, m)
  }

  /** A sweep's cutoff lies the retention before the clock it was read from. */
  ghost predicate Cuts(cfg: Config, t: seq<Event>, id: nat, cutoff: int, n: int) {
    Does(t, n, id, CutoffRead(cutoff)) && cutoff == t[n].at - cfg.retention
  }

  /** Why thread `id` may forward `req` as `user`. */
  ghost predicate Justified(env: Env, cfg: Config, t: seq<Event>, id: nat, lane: Lane, req: Req, user: Str, why: Why) {
    match why
    case ByToken(token) =>
      lane == BearerLane && cfg.acceptBearer && exists a, j :: Vouched(t, id, req, token, user, a, j)
    case ByRecord(proof, c) =>
      && lane == LaneOf(proof) && user == c.username
      && exists a, g, x, v :: Proves(env, cfg, t, id, req, proof, c, a, g, x, v)
  }

  /** Why thread `id` may refuse its request with this result at this time. */
  ghost predicate Caused(env: Env, cfg: Config, t: seq<Event>, id: nat, at: int, lane: Lane, result: Label) {
    match result
    case Success => false
    case Disabled =>
      && !cfg.acceptBearer && lane == BearerLane
      && exists a, req :: Does(t, a, id, Arrived(req)) && Dispatch(req).ToBearer?
    case TokenRefused(_) =>
      && cfg.acceptBearer && lane == BearerLane
      && exists a, req :: Does(t, a, id, Arrived(req)) && Dispatch(req).ToBearer?
    case StoreDown =>
      exists a, req, proof :: Does(t, a, id, Arrived(req)) && Presents(req, proof) && lane == LaneOf(proof)
    case UnknownKey =>
      exists req, proof, a, g :: Fetches(t, id, req, proof, None, a, g) && lane == LaneOf(proof)
    case ExpiredKey =>
      exists req, proof, c, a, g ::
        Fetches(t, id, req, proof, Some(c), a, g) && lane == LaneOf(proof) && Expired(c, at)
    case BadSession =>
      exists req, proof, c, a, g ::
        && Fetches(t, id, req, proof, Some(c), a, g) && lane == LaneOf(proof)
        && !Expired(c, at) && SessionToken(req, proof) != c.token
    case _ => Unreadable(t, id, lane, result) || Disproved(env, cfg, t, id, at, lane, result)
  }

  ghost predicate Unreadable(t: seq<Event>, id: nat, lane: Lane, result: Label) {
    result == BadSyntax && exists a, req :: Does(t, a, id, Arrived(req)) && Unparsed(lane, req)
  }

  ghost predicate Unparsed(lane: Lane, req: Req) {
    match Dispatch(req)
    case ToHeader(header) => lane == HeaderLane && Parse(header).Err?
    case ToQuery => lane == QueryLane && ParsePresigned(req.rawQuery).Err?
    case _ => false
  }

  ghost predicate Disproved(env: Env, cfg: Config, t: seq<Event>, id: nat, at: int, lane: Lane, result: Label) {
    exists req, proof, c, a, g, x ::
      && Passes(t, id, req, proof, c, a, g, x) && lane == LaneOf(proof)
      && var v := VerifyProof(env, cfg, req, proof, c, at);
         v.Err? && result == ErrorLabel(proof, v.error)
  }

  /** Why an exchange may end with this code at this time. */
  ghost predicate Withheld(cfg: Config, t: seq<Event>, id: nat, at: int, code: Exchange.Code, cause: Cause) {
    match cause
    case BadForm =>
      exists form, q :: Does(t, q, id, Asked(form)) && Exchange.CheckForm(form, cfg.allowlist) == Exchange.Refuse(code)
    case BadToken(e) =>
      code == Exchange.MapTokenError(e) && exists token, requested, q :: Orders(cfg, t, id, q, token, requested)
    case NoLife =>
      code == Exchange.ExpiredIdentity && exists i, requested, q, j ::
        Identifies(cfg, t, id, i, requested, q, j) && Lifetime.Ttl(i.expiry, at, cfg.maxDuration, requested) <= 0
    case NoDraw =>
      code == Exchange.ServiceFailure && exists i, requested, q, j :: Identifies(cfg, t, id, i, requested, q, j)
    case NotStored => code == Exchange.ServiceFailure && exists c :: Issued(cfg, t, id, c)
  }

  /** Why a record may pass the check at this time: the request's own Get returned it, it is
      unexpired, and the request presents its session token. */
  ghost predicate Admissible(t: seq<Event>, id: nat, c: Credentials, at: int) {
    exists req, proof, a, g ::
      Fetches(t, id, req, proof, Some(c), a, g) && !Expired(c, at) && SessionToken(req, proof) == c.token
  }

  /** Why a signature may pass at this time. */
  ghost predicate Provable(env: Env, cfg: Config, t: seq<Event>, id: nat, c: Credentials, at: int) {
    exists req, proof, a, g, x ::
      Passes(t, id, req, proof, c, a, g, x) && VerifyProof(env, cfg, req, proof, c, at).Ok?
  }

  // ---- The invariant ----

  ghost predicate EventOk(env: Env, cfg: Config, before: seq<Event>, e: Event) {
    match e.act
    case Accepted(_, i) => ValidUsername(i.username)
    case Got(akid, found) => found == Store.Lookup(Replay(before), akid)
    case Admitted(c) => Admissible(before, e.id, c, e.at)
    case Proved(c) => Provable(env, cfg, before, e.id, c, e.at)
    case Sent(lane, req, out, user, why, again) =>
      && Justified(env, cfg, before, e.id, lane, req, user, why) && e.at <= again
      && out == ApplyIdentity(env, cfg.up, Stripped(req, why), user, AuthFor(why), e.at, again)
    case Rejected(lane, result) => Caused(env, cfg, before, e.id, e.at, lane, result)
    case PassedThrough(req) => !cfg.strict && Dispatch(req).ToNobody? && exists a :: Does(before, a, e.id, Arrived(req))
    case Stored(c) => Issued(cfg, before, e.id, c)
    case Answered(code, cause) => Withheld(cfg, before, e.id, e.at, code, cause)
    case Swept(cutoff) => exists n :: Cuts(cfg, before, e.id, cutoff, n)
    case _ => true
  }

  ghost predicate ThreadOk(env: Env, cfg: Config, t: seq<Event>, id: nat, th: Thread) {
    match th
    case Fresh(req) => exists a :: Does(t, a, id, Arrived(req))
    case NeedsToken(req, token) =>
      cfg.acceptBearer && Dispatch(req) == ToBearer(token) && exists a :: Does(t, a, id, Arrived(req))
    case NeedsRecord(req, proof) => Presents(req, proof) && exists a :: Does(t, a, id, Arrived(req))
    case HasAnswer(req, proof, found) => exists a, g :: Fetches(t, id, req, proof, found, a, g)
    case Checked(req, proof, c) => exists a, g, x :: Passes(t, id, req, proof, c, a, g, x)
    case Cleared(lane, req, user, why) => Justified(env, cfg, t, id, lane, req, user, why)
    case Asking(form) => exists q :: Does(t, q, id, Asked(form))
    case Exchanging(token, requested) => exists q :: Orders(cfg, t, id, q, token, requested)
    case Identified(i, requested) => exists q, j :: Identifies(cfg, t, id, i, requested, q, j)
    case Minted(c) => Issued(cfg, t, id, c)
    case Sweeping(cutoff) => exists n :: Cuts(cfg, t, id, cutoff, n)
    case _ => true
  }

  ghost predicate TraceOk(env: Env, cfg: Config, t: seq<Event>) {
    forall k :: 0 <= k < |t| ==> EventOk(env, cfg, t[..k], t[k])
  }

  ghost predicate Inv(env: Env, cfg: Config, s: State) {
    && Orderly(s)
    && TraceOk(env, cfg, s.trace)
    && forall id :: id in s.threads ==> ThreadOk(env, cfg, s.trace, id, s.threads[id])
  }

  // ---- History only grows ----

  lemma DoesStays(t: seq<Event>, t': seq<Event>, i: int, id: nat, act: Act)
    requires t <= t' && Does(t, i, id, act)
    ensures Does(t', i, id, act) && t'[i].at == t[i].at
  {
  }

  lemma FetchesStays(t: seq<Event>, t': seq<Event>, id: nat, req: Req, proof: Proof, found: Option<Credentials>,
                     a: int, g: int)
    requires t <= t' && Fetches(t, id, req, proof, found, a, g)
    ensures Fetches(t', id, req, proof, found, a, g)
  {
    hide Presents, AkidOf;
  }

  lemma PassesStays(t: seq<Event>, t': seq<Event>, id: nat, req: Req, proof: Proof, c: Credentials,
                    a: int, g: int, x: int)
    requires t <= t' && Passes(t, id, req, proof, c, a, g, x)
    ensures Passes(t', id, req, proof, c, a, g, x)
  {
    hide Fetches, SessionToken, Expired;
    FetchesStays(t, t', id, req, proof, Some(c), a, g);
  }

  lemma ProvesStays(env: Env, cfg: Config, t: seq<Event>, t': seq<Event>, id: nat, req: Req, proof: Proof,
                    c: Credentials, a: int, g: int, x: int, v: int)
    requires t <= t' && Proves(env, cfg, t, id, req, proof, c, a, g, x, v)
    ensures Proves(env, cfg, t', id, req, proof, c, a, g, x, v)
  {
    hide Passes, VerifyProof;
    PassesStays(t, t', id, req, proof, c, a, g, x);
  }

  lemma IdentifiesStays(cfg: Config, t: seq<Event>, t': seq<Event>, id: nat, i: Identity, requested: int, q: int,
                        j: int)
    requires t <= t' && Identifies(cfg, t, id, i, requested, q, j)
    ensures Identifies(cfg, t', id, i, requested, q, j)
  {
    hide ValidUsername, Exchange.CheckForm;
  }

  lemma MintsStays(cfg: Config, t: seq<Event>, t': seq<Event>, id: nat, c: Credentials, i: Identity, requested: int,
                   q: int, j: int, m: int)
    requires t <= t' && Mints(cfg, t, id, c, i, requested, q, j, m)
    ensures Mints(cfg, t', id, c, i, requested, q, j, m)
  {
    hide Identifies, Lifetime.Ttl;
    IdentifiesStays(cfg, t, t', id, i, requested, q, j);
  }

  lemma JustifiedStays(env: Env, cfg: Config, t: seq<Event>, t': seq<Event>, id: nat, lane: Lane, req: Req,
                       user: Str, why: Why)
    requires t <= t' && Justified(env, cfg, t, id, lane, req, user, why)
    ensures Justified(env, cfg, t', id, lane, req, user, why)
  {
    hide Dispatch, Proves, LaneOf;
    match why
    case ByToken(token) =>
      var a, j :| Vouched(t, id, req, token, user, a, j);
      assert Vouched(t', id, req, token, user, a, j);
    case ByRecord(proof, c) =>
      var a, g, x, v :| Proves(env, cfg, t, id, req, proof, c, a, g, x, v);
      ProvesStays(env, cfg, t, t', id, req, proof, c, a, g, x, v);
  }

  lemma ArrivalStays(t: seq<Event>, t': seq<Event>, id: nat, act: Act)
    requires t <= t' && exists a :: Does(t, a, id, act)
    ensures exists a :: Does(t', a, id, act)
  {
    var a :| Does(t, a, id, act);
    assert Does(t', a, id, act);
  }

  lemma ThreadStays(env: Env, cfg: Config, t: seq<Event>, t': seq<Event>, id: nat, th: Thread)
    requires t <= t' && ThreadOk(env, cfg, t, id, th)
    ensures ThreadOk(env, cfg, t', id, th)
  {
    hide Presents, Dispatch, Justified, Admissible, Provable, Fetches, Passes, Orders, Identifies, Mints;
    match th
    case Fresh(req) => ArrivalStays(t, t', id, Arrived(req));
    case NeedsToken(req, _) => ArrivalStays(t, t', id, Arrived(req));
    case NeedsRecord(req, _) => ArrivalStays(t, t', id, Arrived(req));
    case HasAnswer(req, proof, found) =>
      var a, g :| Fetches(t, id, req, proof, found, a, g);
      FetchesStays(t, t', id, req, proof, found, a, g);
    case Checked(req, proof, c) =>
      var a, g, x :| Passes(t, id, req, proof, c, a, g, x);
      PassesStays(t, t', id, req, proof, c, a, g, x);
    case Cleared(lane, req, user, why) => JustifiedStays(env, cfg, t, t', id, lane, req, user, why);
    case Asking(form) => ArrivalStays(t, t', id, Asked(form));
    case Exchanging(token, requested) =>
      var q :| Orders(cfg, t, id, q, token, requested);
      OrdersStays(cfg, t, t', id, q, token, requested);
    case Identified(i, requested) =>
      var q, j :| Identifies(cfg, t, id, i, requested, q, j);
      IdentifiesStays(cfg, t, t', id, i, requested, q, j);
    case Minted(c) =>
      var i, requested, q, j, m :| Mints(cfg, t, id, c, i, requested, q, j, m);
      MintsStays(cfg, t, t', id, c, i, requested, q, j, m);
    case Sweeping(cutoff) =>
      var n :| Cuts(cfg, t, id, cutoff, n);
      DoesStays(t, t', n, id, CutoffRead(cutoff));
      assert Cuts(cfg, t', id, cutoff, n);
    case _ =>
  }

  lemma OrdersStays(cfg: Config, t: seq<Event>, t': seq<Event>, id: nat, q: int, token: Str, requested: int)
    requires t <= t' && Orders(cfg, t, id, q, token, requested)
    ensures Orders(cfg, t', id, q, token, requested)
  {
    hide Exchange.CheckForm;
  }

  // ---- Every move keeps it ----

  function Logged(t: seq<Event>, now: int, id: nat, act: Option<Act>): seq<Event> {
    if act.Some? then t + [Event(now, id, act.value)] else t
  }

  /** A move whose act and whose next thread are accounted for. */
  ghost predicate MoveOk(env: Env, cfg: Config, t: seq<Event>, now: int, id: nat, m: Move) {
    && (m.act.Some? ==> EventOk(env, cfg, t, Event(now, id, m.act.value)))
    && ThreadOk(env, cfg, Logged(t, now, id, m.act), id, m.next)
  }

  lemma ApplyKeeps(env: Env, cfg: Config, s: State, id: nat, m: Move)
    requires Inv(env, cfg, s) && MoveOk(env, cfg, s.trace, s.now, id, m) && Orderly(Apply(s, id, m))
    ensures Inv(env, cfg, Apply(s, id, m))
  {
    hide ThreadOk, EventOk, Orderly, Effect, Count;
    var t, t' := s.trace, Apply(s, id, m).trace;
    assert t' == Logged(t, s.now, id, m.act);
    forall k | 0 <= k < |t'| ensures EventOk(env, cfg, t'[..k], t'[k]) {
      if k < |t| {
        assert t'[..k] == t[..k] && t'[k] == t[k];
      } else {
        assert t'[..k] == t;
      }
    }
    forall i | i in s.threads ensures ThreadOk(env, cfg, t', i, s.threads[i]) {
      ThreadStays(env, cfg, t, t', i, s.threads[i]);
    }
  }

  lemma RejectOk(env: Env, cfg: Config, t: seq<Event>, now: int, id: nat, lane: Lane, result: Label)
    requires Caused(env, cfg, t, id, now, lane, result)
    ensures MoveOk(env, cfg, t, now, id, Reject(lane, result))
  {
    hide Does, Vouched, Presents, Dispatch, Fetches, Passes, Proves, Orders, Identifies, Issued, Justified, Admissible,
      Provable, Caused, Withheld, Replay, Cuts, ApplyIdentity, Stripped, AuthFor, ValidUsername;
  }

  lemma FailOk(env: Env, cfg: Config, t: seq<Event>, now: int, id: nat, code: Exchange.Code, cause: Cause)
    requires Withheld(cfg, t, id, now, code, cause)
    ensures MoveOk(env, cfg, t, now, id, Fail(code, cause))
  {
    hide Does, Vouched, Presents, Dispatch, Fetches, Passes, Proves, Orders, Identifies, Issued, Justified, Admissible,
      Provable, Caused, Withheld, Replay, Cuts, ApplyIdentity, Stripped, AuthFor, ValidUsername;
  }

  /** A move that does nothing visible. */
  lemma SilentOk(env: Env, cfg: Config, t: seq<Event>, now: int, id: nat, next: Thread, tally: Tally)
    requires ThreadOk(env, cfg, t, id, next)
    ensures MoveOk(env, cfg, t, now, id, Move(next, None, tally))
  {
    hide EventOk, ThreadOk;
  }

  lemma RouteOk(env: Env, cfg: Config, t: seq<Event>, now: int, id: nat, req: Req)
    requires ThreadOk(env, cfg, t, id, Fresh(req))
    ensures MoveOk(env, cfg, t, now, id, RouteMove(cfg, req))
  {
    hide MoveOk, Parse, ParsePresigned, IsPresigned, HasPrefix, Get, Does, Vouched, Fetches, Passes, Proves, Orders,
      Identifies, Mints, Issued, Justified, Admissible, Provable, Withheld, Replay, Cuts, ApplyIdentity, Stripped,
      AuthFor, ValidUsername, SessionToken, Expired, LaneOf, AkidOf, VerifyProof, Disproved;
    var a :| Does(t, a, id, Arrived(req));
    match Dispatch(req)
    case ToBearer(token) =>
      if cfg.acceptBearer {
        SilentOk(env, cfg, t, now, id, NeedsToken(req, token), Nothing);
      } else {
        RejectOk(env, cfg, t, now, id, BearerLane, Disabled);
      }
    case ToHeader(header) =>
      if Parse(header).Ok? {
        SilentOk(env, cfg, t, now, id, NeedsRecord(req, HeaderProof(Parse(header).value)), Nothing);
      } else {
        assert Unreadable(t, id, HeaderLane, BadSyntax);
        RejectOk(env, cfg, t, now, id, HeaderLane, BadSyntax);
      }
    case ToQuery =>
      if ParsePresigned(req.rawQuery).Ok? {
        SilentOk(env, cfg, t, now, id, NeedsRecord(req, QueryProof(ParsePresigned(req.rawQuery).value)), Nothing);
      } else {
        assert Unreadable(t, id, QueryLane, BadSyntax);
        RejectOk(env, cfg, t, now, id, QueryLane, BadSyntax);
      }
    case ToNobody => PassOk(env, cfg, t, now, id, req);
  }

  lemma PassOk(env: Env, cfg: Config, t: seq<Event>, now: int, id: nat, req: Req)
    requires Dispatch(req).ToNobody? && exists a :: Does(t, a, id, Arrived(req))
    ensures MoveOk(env, cfg, t, now, id, RouteMove(cfg, req))
  {
    hide Parse, ParsePresigned, Does, Vouched, Presents, Dispatch, Fetches, Passes, Proves, Orders, Identifies, Mints,
      Issued, Justified, Admissible, Provable, Caused, Withheld, Replay, Cuts, ApplyIdentity, Stripped, AuthFor,
      ValidUsername, SessionToken, Expired, LaneOf, AkidOf, VerifyProof, Disproved, Unreadable;
  }

  lemma BearerOk(env: Env, cfg: Config, t: seq<Event>, now: int, id: nat, req: Req, token: Str, verdict: Verdict)
    requires ThreadOk(env, cfg, t, id, NeedsToken(req, token))
    ensures MoveOk(env, cfg, t, now, id, BearerMove(req, token, verdict))
  {
    hide Presents, Dispatch, Fetches, Passes, Proves, Orders, Identifies, Mints, Issued, Withheld, Replay, Cuts,
      ApplyIdentity, Stripped, AuthFor, ValidUsername, SessionToken, Expired, LaneOf, AkidOf, VerifyProof, Disproved,
      Unreadable;
    var a :| Does(t, a, id, Arrived(req));
    match Policy(verdict)
    case Fails(e) => RejectOk(env, cfg, t, now, id, BearerLane, TokenRefused(e));
    case Claims(i) =>
      var e := Event(now, id, Accepted(token, i));
      DoesStays(t, t + [e], a, id, Arrived(req));
      assert Vouched(t + [e], id, req, token, i.username, a, |t|);
  }

  lemma GetOk(env: Env, cfg: Config, t: seq<Event>, now: int, id: nat, req: Req, proof: Proof, storeError: bool)
    requires ThreadOk(env, cfg, t, id, NeedsRecord(req, proof))
    ensures MoveOk(env, cfg, t, now, id, GetMove(Replay(t), req, proof, storeError))
  {
    hide Store.Lookup, Vouched, Presents, Dispatch, Passes, Proves, Orders, Identifies, Mints, Issued, Justified,
      Admissible, Provable, Withheld, Replay, Cuts, ApplyIdentity, Stripped, AuthFor, ValidUsername, SessionToken,
      Expired, LaneOf, AkidOf, VerifyProof, Disproved, Unreadable;
    var a :| Does(t, a, id, Arrived(req));
    if storeError {
      RejectOk(env, cfg, t, now, id, LaneOf(proof), StoreDown);
    } else {
      var found := Store.Lookup(Replay(t), AkidOf(proof));
      var t' := t + [Event(now, id, Got(AkidOf(proof), found))];
      assert Does(t', a, id, Arrived(req)) && Does(t', |t|, id, Got(AkidOf(proof), found));
      assert Fetches(t', id, req, proof, found, a, |t|);
    }
  }

  lemma CheckOk(env: Env, cfg: Config, t: seq<Event>, now: int, id: nat, req: Req, proof: Proof,
                found: Option<Credentials>)
    requires ThreadOk(env, cfg, t, id, HasAnswer(req, proof, found))
    ensures MoveOk(env, cfg, t, now, id, CheckMove(now, req, proof, found))
  {
    hide MoveOk, Does, Vouched, Presents, Dispatch, Fetches, Passes, Proves, Orders, Identifies, Mints, Issued,
      Justified, Admissible, Provable, Withheld, Replay, Cuts, ApplyIdentity, Stripped, AuthFor, ValidUsername,
      SessionToken, Expired, LaneOf, AkidOf, VerifyProof, Disproved, Unreadable;
    var a, g :| Fetches(t, id, req, proof, found, a, g);
    if found.None? {
      RejectOk(env, cfg, t, now, id, LaneOf(proof), UnknownKey);
    } else if Expired(found.value, now) {
      RejectOk(env, cfg, t, now, id, LaneOf(proof), ExpiredKey);
    } else if SessionToken(req, proof) != found.value.token {
      RejectOk(env, cfg, t, now, id, LaneOf(proof), BadSession);
    } else {
      AdmitOk(env, cfg, t, now, id, req, proof, found.value, a, g);
    }
  }

  lemma AdmitOk(env: Env, cfg: Config, t: seq<Event>, now: int, id: nat, req: Req, proof: Proof, c: Credentials,
                a: int, g: int)
    requires Fetches(t, id, req, proof, Some(c), a, g) && !Expired(c, now) && SessionToken(req, proof) == c.token
    ensures MoveOk(env, cfg, t, now, id, Move(Checked(req, proof, c), Some(Admitted(c)), Nothing))
  {
    hide Vouched, Presents, Dispatch, Fetches, Proves, Orders, Identifies, Mints, Issued, Justified, Admissible,
      Provable, Caused, Withheld, Replay, Cuts, ApplyIdentity, Stripped, AuthFor, ValidUsername, SessionToken, Expired,
      LaneOf, AkidOf, VerifyProof, Disproved, Unreadable;
    var t' := t + [Event(now, id, Admitted(c))];
    FetchesStays(t, t', id, req, proof, Some(c), a, g);
    assert g < |t| by { FetchesInside(t, id, req, proof, Some(c), a, g); }
    assert Passes(t', id, req, proof, c, a, g, |t|);
    assert Admissible(t, id, c, now) by { AdmissibleNow(t, id, req, proof, c, a, g, now); }
  }

  lemma AdmissibleNow(t: seq<Event>, id: nat, req: Req, proof: Proof, c: Credentials, a: int, g: int, at: int)
    requires Fetches(t, id, req, proof, Some(c), a, g) && !Expired(c, at) && SessionToken(req, proof) == c.token
    ensures Admissible(t, id, c, at)
  {
    hide Fetches, Expired, SessionToken;
  }

  lemma ProvableNow(env: Env, cfg: Config, t: seq<Event>, id: nat, req: Req, proof: Proof, c: Credentials,
                    a: int, g: int, x: int, at: int)
    requires Passes(t, id, req, proof, c, a, g, x) && VerifyProof(env, cfg, req, proof, c, at).Ok?
    ensures Provable(env, cfg, t, id, c, at)
  {
    hide Passes, VerifyProof;
  }

  lemma FetchesInside(t: seq<Event>, id: nat, req: Req, proof: Proof, found: Option<Credentials>, a: int, g: int)
    requires Fetches(t, id, req, proof, found, a, g)
    ensures 0 <= a < g < |t|
  {
    hide Presents;
  }

  lemma VerifyOk(env: Env, cfg: Config, t: seq<Event>, now: int, id: nat, req: Req, proof: Proof, c: Credentials)
    requires ThreadOk(env, cfg, t, id, Checked(req, proof, c))
    ensures MoveOk(env, cfg, t, now, id, VerifyMove(env, cfg, now, req, proof, c))
  {
    hide MoveOk, ErrorLabel, Does, Vouched, Presents, Dispatch, Fetches, Passes, Proves, Orders, Identifies, Mints,
      Issued, Justified, Admissible, Provable, Caused, Withheld, Replay, Cuts, ApplyIdentity, Stripped, AuthFor,
      ValidUsername, SessionToken, Expired, LaneOf, AkidOf, VerifyProof, Disproved, Unreadable;
    var a, g, x :| Passes(t, id, req, proof, c, a, g, x);
    match VerifyProof(env, cfg, req, proof, c, now)
    case Err(e) =>
      CauseDisproved(env, cfg, t, now, id, req, proof, c, a, g, x);
      RejectOk(env, cfg, t, now, id, LaneOf(proof), ErrorLabel(proof, e));
    case Ok(_) => ProveOk(env, cfg, t, now, id, req, proof, c, a, g, x);
  }

  lemma CauseDisproved(env: Env, cfg: Config, t: seq<Event>, now: int, id: nat, req: Req, proof: Proof, c: Credentials,
                       a: int, g: int, x: int)
    requires Passes(t, id, req, proof, c, a, g, x) && VerifyProof(env, cfg, req, proof, c, now).Err?
    ensures Caused(env, cfg, t, id, now, LaneOf(proof),
                   ErrorLabel(proof, VerifyProof(env, cfg, req, proof, c, now).error))
  {
    hide Passes, VerifyProof, Fetches, Presents, Unreadable, Dispatch, SessionToken, Expired, LaneOf;
    assert Disproved(env, cfg, t, id, now, LaneOf(proof),
                     ErrorLabel(proof, VerifyProof(env, cfg, req, proof, c, now).error));
  }

  lemma ProveOk(env: Env, cfg: Config, t: seq<Event>, now: int, id: nat, req: Req, proof: Proof, c: Credentials,
                a: int, g: int, x: int)
    requires Passes(t, id, req, proof, c, a, g, x) && VerifyProof(env, cfg, req, proof, c, now).Ok?
    ensures MoveOk(env, cfg, t, now, id, VerifyMove(env, cfg, now, req, proof, c))
  {
    hide ErrorLabel, Vouched, Presents, Dispatch, Fetches, Passes, Orders, Identifies, Mints, Issued, Caused,
      Admissible, Provable, Withheld, Replay, Cuts, ApplyIdentity, Stripped, AuthFor, ValidUsername, SessionToken,
      Expired, LaneOf, AkidOf, VerifyProof, Disproved, Unreadable;
    var t' := t + [Event(now, id, Proved(c))];
    PassesStays(t, t', id, req, proof, c, a, g, x);
    assert x < |t| by { PassesInside(t, id, req, proof, c, a, g, x); }
    assert Does(t', |t|, id, Proved(c));
    assert Proves(env, cfg, t', id, req, proof, c, a, g, x, |t|);
    assert Provable(env, cfg, t, id, c, now) by { ProvableNow(env, cfg, t, id, req, proof, c, a, g, x, now); }
  }

  lemma PassesInside(t: seq<Event>, id: nat, req: Req, proof: Proof, c: Credentials, a: int, g: int, x: int)
    requires Passes(t, id, req, proof, c, a, g, x)
    ensures g < x < |t|
  {
    hide Fetches, SessionToken;
  }

  lemma SendOk(env: Env, cfg: Config, t: seq<Event>, now: int, id: nat, th: Thread, again: int)
    requires th.Cleared? && ThreadOk(env, cfg, t, id, th) && now <= again
    ensures MoveOk(env, cfg, t, now, id, SendMove(env, cfg, now, th, again))
  {
    hide Does, Vouched, Presents, Dispatch, Fetches, Passes, Proves, Orders, Identifies, Mints, Issued, Justified,
      Admissible, Provable, Caused, Withheld, Replay, Cuts, ApplyIdentity, Stripped, AuthFor, ValidUsername,
      SessionToken, Expired, LaneOf, AkidOf, VerifyProof, Disproved, Unreadable;
  }

  lemma FormOk(env: Env, cfg: Config, t: seq<Event>, now: int, id: nat, form: Exchange.Form)
    requires ThreadOk(env, cfg, t, id, Asking(form))
    ensures MoveOk(env, cfg, t, now, id, FormMove(cfg, form))
  {
    hide MoveOk, Exchange.CheckForm, Vouched, Presents, Dispatch, Fetches, Passes, Proves, Identifies, Mints, Issued,
      Justified, Admissible, Provable, Caused, Replay, Cuts, ApplyIdentity, Stripped, AuthFor, ValidUsername,
      SessionToken, Expired, LaneOf, AkidOf, VerifyProof, Disproved, Unreadable;
    var q :| Does(t, q, id, Asked(form));
    match Exchange.CheckForm(form, cfg.allowlist)
    case Refuse(code) => FailOk(env, cfg, t, now, id, code, BadForm);
    case Proceed(token, requested) =>
      assert Orders(cfg, t, id, q, token, requested);
      SilentOk(env, cfg, t, now, id, Exchanging(token, requested), Nothing);
  }

  lemma ExchangeOk(env: Env, cfg: Config, t: seq<Event>, now: int, id: nat, token: Str, requested: int,
                   verdict: Verdict)
    requires ThreadOk(env, cfg, t, id, Exchanging(token, requested))
    ensures MoveOk(env, cfg, t, now, id, ExchangeMove(token, requested, verdict))
  {
    hide Exchange.MapTokenError, Does, Vouched, Presents, Dispatch, Fetches, Passes, Proves, Orders, Mints, Issued,
      Justified, Admissible, Provable, Caused, Replay, Cuts, ApplyIdentity, Stripped, AuthFor, ValidUsername,
      SessionToken, Expired, LaneOf, AkidOf, VerifyProof, Disproved, Unreadable;
    var q :| Orders(cfg, t, id, q, token, requested);
    match Policy(verdict)
    case Fails(e) => FailOk(env, cfg, t, now, id, Exchange.MapTokenError(e), BadToken(e));
    case Claims(i) =>
      var t' := t + [Event(now, id, Accepted(token, i))];
      OrdersStays(cfg, t, t', id, q, token, requested);
      assert 0 <= q < |t| by { OrdersInside(cfg, t, id, q, token, requested); }
      assert Identifies(cfg, t', id, i, requested, q, |t|);
  }

  lemma OrdersInside(cfg: Config, t: seq<Event>, id: nat, q: int, token: Str, requested: int)
    requires Orders(cfg, t, id, q, token, requested)
    ensures 0 <= q < |t|
  {
    hide Exchange.CheckForm;
  }

  lemma MintOk(env: Env, cfg: Config, t: seq<Event>, now: int, id: nat, i: Identity, requested: int, draw: Draw)
    requires ThreadOk(env, cfg, t, id, Identified(i, requested))
    ensures MoveOk(env, cfg, t, now, id, MintMove(cfg, now, i, requested, draw))
  {
    hide Lifetime.Ttl, MintedAkid, Vouched, Presents, Dispatch, Fetches, Passes, Proves, Orders, Identifies, Justified,
      Admissible, Provable, Caused, Replay, Cuts, ApplyIdentity, Stripped, AuthFor, ValidUsername, SessionToken,
      Expired, LaneOf, AkidOf, VerifyProof, Disproved, Unreadable;
    var q, j :| Identifies(cfg, t, id, i, requested, q, j);
    var ttl := Lifetime.Ttl(i.expiry, now, cfg.maxDuration, requested);
    if ttl <= 0 {
      FailOk(env, cfg, t, now, id, Exchange.ExpiredIdentity, NoLife);
    } else if draw.failed {
      FailOk(env, cfg, t, now, id, Exchange.ServiceFailure, NoDraw);
    } else {
      var c := Credentials(MintedAkid(draw.akid), draw.secret, draw.session, i.username, i.issuer, now + ttl);
      var t' := t + [Event(now, id, Made(c))];
      IdentifiesStays(cfg, t, t', id, i, requested, q, j);
      assert j < |t| by { IdentifiesInside(cfg, t, id, i, requested, q, j); }
      assert Mints(cfg, t', id, c, i, requested, q, j, |t|);
    }
  }

  lemma IdentifiesInside(cfg: Config, t: seq<Event>, id: nat, i: Identity, requested: int, q: int, j: int)
    requires Identifies(cfg, t, id, i, requested, q, j)
    ensures 0 <= q < j < |t| && ValidUsername(i.username)
  {
    hide Exchange.CheckForm, ValidUsername;
  }

  lemma PutOk(env: Env, cfg: Config, t: seq<Event>, now: int, id: nat, c: Credentials, storeError: bool)
    requires ThreadOk(env, cfg, t, id, Minted(c))
    ensures MoveOk(env, cfg, t, now, id, PutMove(c, storeError))
  {
    hide Issued, Does, Vouched, Presents, Dispatch, Fetches, Passes, Proves, Orders, Identifies, Justified, Admissible,
      Provable, Caused, Replay, Cuts, ApplyIdentity, Stripped, AuthFor, ValidUsername, SessionToken, Expired, LaneOf,
      AkidOf, VerifyProof, Disproved, Unreadable;
    if storeError {
      FailOk(env, cfg, t, now, id, Exchange.ServiceFailure, NotStored);
    }
  }

  /** Moves that nothing has to be known about. */
  lemma FreeOk(env: Env, cfg: Config, t: seq<Event>, now: int, id: nat, m: Move)
    requires m.next.Revoking? || m.next.Revocable? || m.next.Idle?
    requires m.act.Some? ==> m.act.value.Deleted?
    ensures MoveOk(env, cfg, t, now, id, m)
  {
    hide Does, Presents, Dispatch, Fetches, Passes, Orders, Identifies, Issued, Justified, Admissible, Provable,
      Caused, Withheld, Replay, Cuts, ApplyIdentity, Stripped, AuthFor, ValidUsername;
  }

  lemma SweepOk(env: Env, cfg: Config, t: seq<Event>, now: int, id: nat, cutoff: int)
    requires ThreadOk(env, cfg, t, id, Sweeping(cutoff))
    ensures MoveOk(env, cfg, t, now, id, Move(Idle, Some(Proxy.Swept(cutoff)), Nothing))
  {
    hide Does, Presents, Dispatch, Fetches, Passes, Orders, Identifies, Issued, Justified, Admissible, Provable,
      Caused, Withheld, Replay, Cuts, ApplyIdentity, Stripped, AuthFor, ValidUsername;
  }

  lemma ArriveOk(env: Env, cfg: Config, t: seq<Event>, now: int, id: nat, next: Thread, act: Act)
    requires (next.Fresh? && act == Arrived(next.req)) || (next.Asking? && act == Asked(next.form))
    ensures MoveOk(env, cfg, t, now, id, Move(next, Some(act), Nothing))
  {
    hide Presents, Dispatch, Fetches, Passes, Orders, Identifies, Issued, Justified, Admissible, Provable, Caused,
      Withheld, Replay, Cuts, ApplyIdentity, Stripped, AuthFor, ValidUsername;
    assert Does(t + [Event(now, id, act)], |t|, id, act);
  }

  lemma CutoffOk(env: Env, cfg: Config, t: seq<Event>, now: int, id: nat)
    ensures var cutoff := now - cfg.retention;
            MoveOk(env, cfg, t, now, id, Move(Sweeping(cutoff), Some(CutoffRead(cutoff)), Nothing))
  {
    hide Presents, Dispatch, Fetches, Passes, Orders, Identifies, Issued, Justified, Admissible, Provable, Caused,
      Withheld, Replay, ApplyIdentity, Stripped, AuthFor, ValidUsername;
    var cutoff := now - cfg.retention;
    assert Cuts(cfg, t + [Event(now, id, CutoffRead(cutoff))], id, cutoff, |t|);
  }

  lemma BeginOk(env: Env, cfg: Config, t: seq<Event>, now: int, step: Step)
    requires !step.Tick?
    ensures var m := Begin(cfg, now, step); m.Some? ==> MoveOk(env, cfg, t, now, step.id, m.value)
  {
    hide MoveOk;
    match step
    case Arrive(id, req) => ArriveOk(env, cfg, t, now, id, Fresh(req), Arrived(req));
    case ArriveExchange(id, form) => ArriveOk(env, cfg, t, now, id, Asking(form), Asked(form));
    case ArriveRevoke(id, akid) => FreeOk(env, cfg, t, now, id, Move(Revoking(akid), None, Nothing));
    case ReadCutoff(id) => CutoffOk(env, cfg, t, now, id);
    case _ =>
  }

  lemma ContinueOk(env: Env, cfg: Config, t: seq<Event>, now: int, th: Thread, step: Step)
    requires !step.Tick? && ThreadOk(env, cfg, t, step.id, th)
    ensures var m := Continue(env, cfg, now, Replay(t), th, step);
            m.Some? ==> MoveOk(env, cfg, t, now, step.id, m.value)
  {
    hide RouteMove, BearerMove, GetMove, CheckMove, VerifyMove, SendMove, FormMove, ExchangeMove, MintMove, PutMove,
      MoveOk, ThreadOk, Replay;
    var id := step.id;
    match th
    case Fresh(req) => RouteOk(env, cfg, t, now, id, req);
    case NeedsToken(req, token) => if step.ValidateBearer? { BearerOk(env, cfg, t, now, id, req, token, step.verdict); }
    case NeedsRecord(req, proof) => if step.GetRecord? { GetOk(env, cfg, t, now, id, req, proof, step.storeError); }
    case HasAnswer(req, proof, found) => CheckOk(env, cfg, t, now, id, req, proof, found);
    case Checked(req, proof, c) => VerifyOk(env, cfg, t, now, id, req, proof, c);
    case Cleared(_, _, _, _) => if step.Send? { SendOk(env, cfg, t, now, id, th, now + step.again); }
    case Asking(form) => FormOk(env, cfg, t, now, id, form);
    case Exchanging(token, n) => if step.ValidateExchange? { ExchangeOk(env, cfg, t, now, id, token, n, step.verdict); }
    case Identified(i, n) => if step.Mint? { MintOk(env, cfg, t, now, id, i, n, step.draw); }
    case Minted(c) => if step.PutRecord? { PutOk(env, cfg, t, now, id, c, step.storeError); }
    case Revoking(akid) =>
      if step.RevokeGet? { FreeOk(env, cfg, t, now, id, RevokeGetMove(Replay(t), akid, step.storeError)); }
    case Revocable(akid) =>
      if step.RevokeDelete? { FreeOk(env, cfg, t, now, id, RevokeDeleteMove(akid, step.storeError)); }
    case Sweeping(cutoff) => SweepOk(env, cfg, t, now, id, cutoff);
    case _ =>
  }

  lemma MoveOfOk(env: Env, cfg: Config, s: State, step: Step)
    requires Inv(env, cfg, s) && !step.Tick?
    ensures var m := MoveOf(env, cfg, s, step);
            m.Some? ==> MoveOk(env, cfg, s.trace, s.now, step.id, m.value) && Orderly(Apply(s, step.id, m.value))
  {
    hide Begin, Continue, MoveOk, ThreadOk, TraceOk, Orderly, Apply;
    assert s.store == Replay(s.trace) by { StoreIsReplay(s); }
    if step.id in s.threads {
      ContinueOk(env, cfg, s.trace, s.now, s.threads[step.id], step);
    } else {
      BeginOk(env, cfg, s.trace, s.now, step);
    }
    NextIsOrderly(env, cfg, s, step);
  }

  lemma TickKeeps(env: Env, cfg: Config, s: State, d: nat)
    requires Inv(env, cfg, s)
    ensures Inv(env, cfg, s.(now := s.now + d))
  {
    hide TraceOk, ThreadOk, Replay, Rank, Stage;
  }

  lemma NextKeeps(env: Env, cfg: Config, s: State, step: Step)
    requires Inv(env, cfg, s)
    ensures Inv(env, cfg, Next(env, cfg, s, step))
  {
    hide Inv, MoveOf, MoveOk, Orderly, Apply;
    if step.Tick? {
      TickKeeps(env, cfg, s, step.d);
    } else {
      MoveOfOk(env, cfg, s, step);
      if MoveOf(env, cfg, s, step).Some? {
        ApplyKeeps(env, cfg, s, step.id, MoveOf(env, cfg, s, step).value);
      }
    }
  }

  lemma {:induction false} RunKeeps(env: Env, cfg: Config, s: State, steps: seq<Step>)
    requires Inv(env, cfg, s)
    ensures Inv(env, cfg, Run(env, cfg, s, steps))
  {
    hide Inv, Next;
    if steps != [] {
      RunKeeps(env, cfg, s, steps[..|steps| - 1]);
      NextKeeps(env, cfg, Run(env, cfg, s, steps[..|steps| - 1]), steps[|steps| - 1]);
    }
  }

  ghost predicate History(env: Env, cfg: Config, t: seq<Event>) {
    TraceOk(env, cfg, t) && Chronological(t) && OncePerThread(t)
  }

  lemma RunHistory(env: Env, cfg: Config, now: int, steps: seq<Step>)
    ensures History(env, cfg, Run(env, cfg, Init(now), steps).trace)
  {
    hide Run, EventOk, ThreadOk, Replay, Rank, Stage;
    InitIsOrderly(now);
    assert Inv(env, cfg, Init(now));
    RunKeeps(env, cfg, Init(now), steps);
  }
}
