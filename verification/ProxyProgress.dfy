/** The other half of safety: what is properly authenticated is forwarded, whatever other threads do
    between the steps of the request, sweeps included. */
module ProxyProgress {
  import opened Seqs
  import opened Strings
  import opened Primitives
  import opened Http
  import opened Authorization
  import opened SigV4
  import opened Presign
  import opened PresignUrl
  import opened Forward
  import opened Store
  import opened Proxy
  import opened ProxyTrace
  import opened ProxyInvariant
  import opened ProxySafety
  import CanonicalQuery
  import CanonicalRequest
  import Exchange
  import Lifetime

  // ---- What a client sends ----

  /** The request a client holding `c` makes of `r`: session token attached, then signed. */
  ghost function ClientRequest(env: Env, cfg: Config, c: Credentials, r: Req, host: Str, signedAt: int): Req {
    var party := Party(c.secret, cfg.up.region, SERVICE);
    Sign(env, SetHeader(r, SECURITY_TOKEN, c.token), c.akid, party, host, signedAt).req
  }

  lemma PrintedRoute(a: Auth)
    ensures HasPrefix(Print(a), ALGORITHM + SPACE) && !HasPrefix(Print(a), BEARER)
  {
    hide CredentialPart, SignedPart, SignaturePart;
    var parts := [SPACE + CredentialPart(a), SPACE + SignedPart(a), SPACE + SignaturePart(a)];
    assert Join(parts, ',')[0] == ' ';
    assert Print(a)[0] == ALGORITHM[0] == 'A' && BEARER[0] == 'B';
    assert Print(a)[..|ALGORITHM| + 1] == ALGORITHM + SPACE;
  }

  lemma SignKeepsSession(env: Env, r: Req, akid: Str, p: Party, host: Str, now: int)
    ensures Get(Sign(env, r, akid, p, host, now).req.header, SECURITY_TOKEN) == Get(r.header, SECURITY_TOKEN)
  {
    hide Print, SignedAuth, CanonicalOf;
    TokenHeaderIsOther();
  }

  lemma TokenNameIsToken()
    ensures IsToken(SECURITY_TOKEN)
  {
    LiteralToken(SECURITY_TOKEN);
  }

  /** The client's request takes the header lane, presents its key and session token, and verifies. */
  lemma ClientRequestVerifies(env: Env, cfg: Config, c: Credentials, r: Req, host: Str, signedAt: int, now: int)
    requires TokenNames(r.header) && CanonicalQuery.Decodable(r.rawQuery)
    requires c.akid != [] && FieldOk(c.akid) && FieldOk(cfg.up.region)
    requires 0 <= signedAt < END_OF_DATES && -cfg.skew <= now - (signedAt - signedAt % SECOND) <= cfg.skew
    ensures var req := ClientRequest(env, cfg, c, r, host, signedAt);
            var h := Get(req.header, AUTHORIZATION);
            && Dispatch(req) == ToHeader(h) && Parse(h).Ok? && Parse(h).value.akid == c.akid
            && Get(req.header, SECURITY_TOKEN) == c.token
            && Verify(env, req, Parse(h).value, Party(c.secret, cfg.up.region, SERVICE), now, cfg.skew).Ok?
  {
    hide Sign, Parse, Verify, Print, HasPrefix, FieldOk, IsToken, CanonicalQuery.Decodable;
    var r1 := SetHeader(r, SECURITY_TOKEN, c.token);
    var party := Party(c.secret, cfg.up.region, SERVICE);
    TokenNameIsToken();
    SyntheticConstantsOk();
    SignThenVerify(env, r1, c.akid, party, host, signedAt, now, cfg.skew);
    SignKeepsSession(env, r1, c.akid, party, host, signedAt);
    var a := SignPrints(env, r1, c.akid, party, host, signedAt);
    PrintedRoute(a);
  }

  lemma SignPrints(env: Env, r: Req, akid: Str, p: Party, host: Str, now: int) returns (a: Auth)
    requires CanonicalQuery.Decodable(r.rawQuery)
    ensures Get(Sign(env, r, akid, p, host, now).req.header, AUTHORIZATION) == Print(a)
  {
    hide Print, SignedAuth, Prepared, CanonicalOf, CanonicalQuery.Decodable;
    SignFailsOnlyOnQuery(env, r, akid, p, host, now);
    var r' := Prepared(env, r, host, now);
    a := SignedAuth(env, r', akid, p, now, CanonicalOf(r').value);
  }

  // ---- Other threads ----

  /** Steps of other threads, and of the clock. */
  ghost predicate Others(steps: seq<Step>, id: nat) {
    forall i :: 0 <= i < |steps| ==> steps[i].Tick? || steps[i].id != id
  }

  /** After `step`, any steps of threads other than `id` lead to s'. */
  ghost predicate Follows(env: Env, cfg: Config, s: State, step: Step, id: nat, s': State) {
    exists others :: Others(others, id) && s' == Run(env, cfg, Next(env, cfg, s, step), others)
  }

  lemma NextFrame(env: Env, cfg: Config, s: State, step: Step, id: nat)
    requires step.Tick? || step.id != id
    ensures ThreadAt(Next(env, cfg, s, step), id) == ThreadAt(s, id)
  {
    hide MoveOf, Effect, Count;
  }

  lemma {:induction false} OthersFrame(env: Env, cfg: Config, s: State, steps: seq<Step>, id: nat)
    requires Others(steps, id)
    ensures ThreadAt(Run(env, cfg, s, steps), id) == ThreadAt(s, id)
  {
    hide Next;
    if steps != [] {
      OthersFrame(env, cfg, s, steps[..|steps| - 1], id);
      NextFrame(env, cfg, Run(env, cfg, s, steps[..|steps| - 1]), steps[|steps| - 1], id);
    }
  }

  /** Time and history only grow. */
  ghost predicate Grows(s: State, s': State) { s.now <= s'.now && s.trace <= s'.trace }

  lemma NextGrows(env: Env, cfg: Config, s: State, step: Step)
    ensures Grows(s, Next(env, cfg, s, step))
  {
    hide MoveOf, Effect, Count;
  }

  lemma {:induction false} RunGrows(env: Env, cfg: Config, s: State, steps: seq<Step>)
    ensures Grows(s, Run(env, cfg, s, steps))
  {
    hide Next;
    if steps != [] {
      RunGrows(env, cfg, s, steps[..|steps| - 1]);
      NextGrows(env, cfg, Run(env, cfg, s, steps[..|steps| - 1]), steps[|steps| - 1]);
    }
  }

  /** An enabled move of `id`, then anything by others: the thread is where the move took it. */
  lemma Moves(env: Env, cfg: Config, s: State, step: Step, s': State, m: Move)
    requires !step.Tick? && MoveOf(env, cfg, s, step) == Some(m) && Follows(env, cfg, s, step, step.id, s')
    ensures ThreadAt(s', step.id) == Some(m.next) && Grows(s, s')
  {
    hide MoveOf, Run, Effect, Count, Others;
    var others :| Others(others, step.id) && s' == Run(env, cfg, Next(env, cfg, s, step), others);
    OthersFrame(env, cfg, Next(env, cfg, s, step), others, step.id);
    NextGrows(env, cfg, s, step);
    RunGrows(env, cfg, Next(env, cfg, s, step), others);
  }

  // ---- Records stay ----

  /** Between the events n and |t| nobody deletes or overwrites the record of this key. */
  ghost predicate Untouched(t: seq<Event>, n: nat, akid: Str) {
    forall k :: n <= k < |t| ==> t[k].act != Deleted(akid) && !Stores(t[k], akid)
  }

  lemma SweepSpares(env: Env, cfg: Config, t: seq<Event>, c: Credentials)
    requires History(env, cfg, t) && t != [] && t[|t| - 1].act.Swept? && t[|t| - 1].at < c.expiresAt
    ensures t[|t| - 1].act.cutoff <= c.expiresAt
  {
    hide Justified, Admissible, Provable, Caused, Withheld, Issued, ApplyIdentity, Stripped, AuthFor, Replay,
      ValidUsername, Dispatch;
    var k := |t| - 1;
    assert EventOk(env, cfg, t[..k], t[k]);
    var n :| Cuts(cfg, t[..k], t[k].id, t[k].act.cutoff, n);
    assert t[..k][n] == t[n];
  }

  lemma EffectKeeps(m: Records, act: Act, c: Credentials)
    requires c.akid in m && m[c.akid] == c && act != Deleted(c.akid) && !(act.Stored? && act.cred.akid == c.akid)
    requires act.Swept? ==> act.cutoff <= c.expiresAt
    ensures c.akid in Effect(m, act) && Effect(m, act)[c.akid] == c
  {
  }

  /** A record that nobody deletes or overwrites is there as long as it is unexpired: sweeps spare
      it, however they interleave. */
  lemma {:induction false} RecordStays(env: Env, cfg: Config, t: seq<Event>, n: nat, c: Credentials)
    requires History(env, cfg, t) && n <= |t| && Untouched(t, n, c.akid)
    requires c.akid in Replay(t[..n]) && Replay(t[..n])[c.akid] == c
    requires t != [] ==> t[|t| - 1].at < c.expiresAt
    ensures c.akid in Replay(t) && Replay(t)[c.akid] == c
    decreases |t|
  {
    hide TraceOk, EventOk, Effect;
    if n == |t| {
      assert t[..n] == t;
    } else {
      var k := |t| - 1;
      PrefixHistory(env, cfg, t, k);
      assert t[..k][..n] == t[..n];
      RecordStays(env, cfg, t[..k], n, c);
      if t[k].act.Swept? {
        SweepSpares(env, cfg, t, c);
      }
      EffectKeeps(Replay(t[..k]), t[k].act, c);
    }
  }

  lemma PrefixHistory(env: Env, cfg: Config, t: seq<Event>, n: nat)
    requires History(env, cfg, t) && n <= |t|
    ensures History(env, cfg, t[..n])
  {
    hide EventOk, Rank;
    assert forall k :: 0 <= k < n ==> t[..n][..k] == t[..k] && t[..n][k] == t[k];
  }

  lemma InvHistory(env: Env, cfg: Config, s: State)
    requires Inv(env, cfg, s)
    ensures History(env, cfg, s.trace) && s.store == Replay(s.trace)
    ensures s.trace != [] ==> s.trace[|s.trace| - 1].at <= s.now
  {
    hide EventOk, ThreadOk, Replay, Rank, Stage;
  }

  /** The same for two states of a run. */
  lemma StoreStays(env: Env, cfg: Config, s: State, s': State, c: Credentials)
    requires Inv(env, cfg, s) && Inv(env, cfg, s') && Grows(s, s') && Untouched(s'.trace, |s.trace|, c.akid)
    requires c.akid in s.store && s.store[c.akid] == c && s'.now < c.expiresAt
    ensures c.akid in s'.store && s'.store[c.akid] == c
  {
    hide Inv, History, Untouched, Replay;
    InvHistory(env, cfg, s);
    InvHistory(env, cfg, s');
    assert s'.trace[..|s.trace|] == s.trace;
    RecordStays(env, cfg, s'.trace, |s.trace|, c);
  }

  // ---- Turns ----

  /** The turn of a request's thread. */
  lemma RequestTurn(env: Env, cfg: Config, s: State, id: nat, t: Thread, verdict: Verdict, again: nat)
    requires ThreadAt(s, id) == Some(t)
    ensures t.Fresh? ==> MoveOf(env, cfg, s, Dispatched(id)) == Some(RouteMove(cfg, t.req))
    ensures t.NeedsToken? ==>
              MoveOf(env, cfg, s, ValidateBearer(id, verdict)) == Some(BearerMove(t.req, t.token, verdict))
    ensures t.NeedsRecord? ==>
              MoveOf(env, cfg, s, GetRecord(id, false)) == Some(GetMove(s.store, t.req, t.proof, false))
    ensures t.HasAnswer? ==> MoveOf(env, cfg, s, CheckRecord(id)) == Some(CheckMove(s.now, t.req, t.proof, t.found))
    ensures t.Checked? ==>
              MoveOf(env, cfg, s, VerifyRequest(id)) == Some(VerifyMove(env, cfg, s.now, t.req, t.proof, t.cred))
    ensures t.Cleared? ==> MoveOf(env, cfg, s, Send(id, again)) == Some(SendMove(env, cfg, s.now, t, s.now + again))
  {
    hide RouteMove, GetMove, CheckMove, VerifyMove, SendMove, BearerMove, FormMove, ExchangeMove, MintMove, PutMove,
      RevokeGetMove, RevokeDeleteMove;
  }

  /** The turn of an exchange's or a revocation's thread. */
  lemma OtherTurn(env: Env, cfg: Config, s: State, id: nat, t: Thread, i: Identity, draw: Draw)
    requires ThreadAt(s, id) == Some(t)
    ensures t.Asking? ==> MoveOf(env, cfg, s, CheckTheForm(id)) == Some(FormMove(cfg, t.form))
    ensures t.Exchanging? ==>
              MoveOf(env, cfg, s, ValidateExchange(id, Claims(i))) ==
              Some(ExchangeMove(t.token, t.requested, Claims(i)))
    ensures t.Identified? ==>
              MoveOf(env, cfg, s, Mint(id, draw)) == Some(MintMove(cfg, s.now, t.identity, t.requested, draw))
    ensures t.Minted? ==> MoveOf(env, cfg, s, PutRecord(id, false)) == Some(PutMove(t.cred, false))
    ensures t.Revoking? ==> MoveOf(env, cfg, s, RevokeGet(id, false)) == Some(RevokeGetMove(s.store, t.akid, false))
    ensures t.Revocable? ==> MoveOf(env, cfg, s, RevokeDelete(id, false)) == Some(RevokeDeleteMove(t.akid, false))
  {
    hide RouteMove, GetMove, CheckMove, VerifyMove, SendMove, BearerMove, FormMove, ExchangeMove, MintMove, PutMove,
      RevokeGetMove, RevokeDeleteMove;
  }

  const NOBODY: Identity := Identity([], [], 0)
  const NO_VERDICT: Verdict := Fails(Exchange.TokenInvalid)
  const NO_DRAW: Draw := Draw([], [], [], true)

  lemma ArriveMoves(env: Env, cfg: Config, s: State, id: nat, req: Req)
    requires id !in s.threads
    ensures MoveOf(env, cfg, s, Arrive(id, req)) == Some(Move(Fresh(req), Some(Arrived(req)), Nothing))
  {
    hide Continue;
  }

  lemma DispatchMoves(env: Env, cfg: Config, s: State, id: nat, req: Req, proof: Proof)
    requires ThreadAt(s, id) == Some(Fresh(req)) && Presents(req, proof)
    ensures MoveOf(env, cfg, s, Dispatched(id)) == Some(Move(NeedsRecord(req, proof), None, Nothing))
  {
    hide GetMove, CheckMove, VerifyMove, SendMove, BearerMove, MoveOf, Reject;
    RequestTurn(env, cfg, s, id, Fresh(req), NO_VERDICT, 0);
    RouteFindsProof(cfg, req, proof);
  }

  lemma RouteFindsProof(cfg: Config, req: Req, proof: Proof)
    requires Presents(req, proof)
    ensures RouteMove(cfg, req) == Move(NeedsRecord(req, proof), None, Nothing)
  {
    hide Parse, ParsePresigned, IsPresigned, HasPrefix, Reject;
  }

  lemma DispatchBearer(env: Env, cfg: Config, s: State, id: nat, req: Req, token: Str)
    requires ThreadAt(s, id) == Some(Fresh(req)) && Dispatch(req) == ToBearer(token) && cfg.acceptBearer
    ensures MoveOf(env, cfg, s, Dispatched(id)) == Some(Move(NeedsToken(req, token), None, Nothing))
  {
    hide GetMove, CheckMove, VerifyMove, SendMove, BearerMove, MoveOf, Reject, Dispatch, Parse, ParsePresigned;
    RequestTurn(env, cfg, s, id, Fresh(req), NO_VERDICT, 0);
  }

  lemma BearerMoves(env: Env, cfg: Config, s: State, id: nat, req: Req, token: Str, i: Identity)
    requires ThreadAt(s, id) == Some(NeedsToken(req, token)) && ValidUsername(i.username)
    ensures MoveOf(env, cfg, s, ValidateBearer(id, Claims(i))) ==
            Some(Move(Cleared(BearerLane, req, i.username, ByToken(token)), Some(Accepted(token, i)),
                      Outcome(BearerLane, Success)))
  {
    hide RouteMove, GetMove, CheckMove, VerifyMove, SendMove, MoveOf, Reject, ValidUsername;
    RequestTurn(env, cfg, s, id, NeedsToken(req, token), Claims(i), 0);
  }

  lemma GetMoves(env: Env, cfg: Config, s: State, id: nat, req: Req, proof: Proof)
    requires ThreadAt(s, id) == Some(NeedsRecord(req, proof))
    ensures var found := Store.Lookup(s.store, AkidOf(proof));
            MoveOf(env, cfg, s, GetRecord(id, false)) ==
            Some(Move(HasAnswer(req, proof, found), Some(Got(AkidOf(proof), found)), Nothing))
  {
    hide BearerMove, RouteMove, CheckMove, VerifyMove, SendMove, MoveOf, AkidOf, Reject;
    RequestTurn(env, cfg, s, id, NeedsRecord(req, proof), NO_VERDICT, 0);
  }

  lemma CheckMoves(env: Env, cfg: Config, s: State, id: nat, req: Req, proof: Proof, c: Credentials)
    requires ThreadAt(s, id) == Some(HasAnswer(req, proof, Some(c)))
    requires !Expired(c, s.now) && SessionToken(req, proof) == c.token
    ensures MoveOf(env, cfg, s, CheckRecord(id)) == Some(Move(Checked(req, proof, c), Some(Admitted(c)), Nothing))
  {
    hide BearerMove, RouteMove, GetMove, VerifyMove, SendMove, MoveOf, SessionToken, Expired, Reject;
    RequestTurn(env, cfg, s, id, HasAnswer(req, proof, Some(c)), NO_VERDICT, 0);
  }

  lemma VerifyMoves(env: Env, cfg: Config, s: State, id: nat, req: Req, proof: Proof, c: Credentials)
    requires ThreadAt(s, id) == Some(Checked(req, proof, c)) && VerifyProof(env, cfg, req, proof, c, s.now).Ok?
    ensures MoveOf(env, cfg, s, VerifyRequest(id)) ==
            Some(Move(Cleared(LaneOf(proof), req, c.username, ByRecord(proof, c)), Some(Proved(c)),
                      Outcome(LaneOf(proof), Success)))
  {
    hide BearerMove, RouteMove, GetMove, CheckMove, SendMove, MoveOf, VerifyProof, LaneOf, Reject;
    RequestTurn(env, cfg, s, id, Checked(req, proof, c), NO_VERDICT, 0);
  }

  lemma NextIs(env: Env, cfg: Config, s: State, step: Step, m: Move)
    requires !step.Tick? && MoveOf(env, cfg, s, step) == Some(m) && m.act.Some?
    ensures var s' := Next(env, cfg, s, step);
            && s'.trace == s.trace + [Event(s.now, step.id, m.act.value)] && ThreadAt(s', step.id) == Some(m.next)
            && s'.store == Effect(s.store, m.act.value) && s'.now == s.now
  {
    hide MoveOf, Effect, Count;
  }

  // ---- Forwarding ----

  /** The event that forwards `req` as `user`. */
  ghost function Forwarding(env: Env, cfg: Config, s: State, id: nat, cleared: Thread, again: nat): Event
    requires cleared.Cleared?
  {
    var out := ApplyIdentity(env, cfg.up, Stripped(cleared.req, cleared.why), cleared.user, AuthFor(cleared.why),
                             s.now, s.now + again);
    Event(s.now, id, Sent(cleared.lane, cleared.req, out, cleared.user, cleared.why, s.now + again))
  }

  /** The thread's next Send forwards its request as that user, and counts as a success. */
  ghost predicate Forwards(env: Env, cfg: Config, s: State, id: nat, cleared: Thread, again: nat)
    requires cleared.Cleared?
  {
    var s' := Next(env, cfg, s, Send(id, again));
    && s'.trace == s.trace + [Forwarding(env, cfg, s, id, cleared, again)]
    && ThreadAt(s', id) == Some(Done(cleared.lane, Success))
  }

  lemma ClearedIsSent(env: Env, cfg: Config, s: State, id: nat, cleared: Thread, again: nat)
    requires cleared.Cleared? && ThreadAt(s, id) == Some(cleared)
    ensures Forwards(env, cfg, s, id, cleared, again)
  {
    hide RouteMove, GetMove, CheckMove, VerifyMove, BearerMove, Next, MoveOf, ApplyIdentity, Stripped, AuthFor, Effect,
      ThreadAt;
    RequestTurn(env, cfg, s, id, cleared, NO_VERDICT, again);
    NextIs(env, cfg, s, Send(id, again), SendMove(env, cfg, s.now, cleared, s.now + again));
  }

  // ---- A request with a credential ----

  /** The states in which thread `id` takes its six steps for `req`, anything by other threads in
      between. */
  datatype Journey = Journey(
    id: nat, req: Req, arrives: State, routes: State, gets: State, checks: State, verifies: State, sends: State)

  ghost predicate Travels(env: Env, cfg: Config, j: Journey) {
    && j.id !in j.arrives.threads
    && Follows(env, cfg, j.arrives, Arrive(j.id, j.req), j.id, j.routes)
    && Follows(env, cfg, j.routes, Dispatched(j.id), j.id, j.gets)
    && Follows(env, cfg, j.gets, GetRecord(j.id, false), j.id, j.checks)
    && Follows(env, cfg, j.checks, CheckRecord(j.id), j.id, j.verifies)
    && Follows(env, cfg, j.verifies, VerifyRequest(j.id), j.id, j.sends)
  }

  /** Up to the answer to its Get. */
  lemma RequestFetches(env: Env, cfg: Config, j: Journey, proof: Proof)
    requires Travels(env, cfg, j) && Presents(j.req, proof)
    ensures ThreadAt(j.checks, j.id) == Some(HasAnswer(j.req, proof, Store.Lookup(j.gets.store, AkidOf(proof))))
  {
    hide Follows, MoveOf, Presents, Store.Lookup, AkidOf;
    ArriveMoves(env, cfg, j.arrives, j.id, j.req);
    Moves(env, cfg, j.arrives, Arrive(j.id, j.req), j.routes, Move(Fresh(j.req), Some(Arrived(j.req)), Nothing));
    DispatchMoves(env, cfg, j.routes, j.id, j.req, proof);
    Moves(env, cfg, j.routes, Dispatched(j.id), j.gets, Move(NeedsRecord(j.req, proof), None, Nothing));
    GetMoves(env, cfg, j.gets, j.id, j.req, proof);
    var found := Store.Lookup(j.gets.store, AkidOf(proof));
    Moves(env, cfg, j.gets, GetRecord(j.id, false), j.checks,
          Move(HasAnswer(j.req, proof, found), Some(Got(AkidOf(proof), found)), Nothing));
  }

  /** From there to its clearance. */
  lemma RequestClears(env: Env, cfg: Config, j: Journey, proof: Proof, c: Credentials)
    requires Travels(env, cfg, j) && ThreadAt(j.checks, j.id) == Some(HasAnswer(j.req, proof, Some(c)))
    requires SessionToken(j.req, proof) == c.token && !Expired(c, j.checks.now)
    requires VerifyProof(env, cfg, j.req, proof, c, j.verifies.now).Ok?
    ensures ThreadAt(j.sends, j.id) == Some(Cleared(LaneOf(proof), j.req, c.username, ByRecord(proof, c)))
  {
    hide Follows, MoveOf, SessionToken, Expired, VerifyProof, LaneOf;
    CheckMoves(env, cfg, j.checks, j.id, j.req, proof, c);
    Moves(env, cfg, j.checks, CheckRecord(j.id), j.verifies,
          Move(Checked(j.req, proof, c), Some(Admitted(c)), Nothing));
    VerifyMoves(env, cfg, j.verifies, j.id, j.req, proof, c);
    var cleared := Cleared(LaneOf(proof), j.req, c.username, ByRecord(proof, c));
    Moves(env, cfg, j.verifies, VerifyRequest(j.id), j.sends,
          Move(cleared, Some(Proved(c)), Outcome(LaneOf(proof), Success)));
  }

  lemma FollowsKeeps(env: Env, cfg: Config, s: State, step: Step, id: nat, s': State)
    requires Inv(env, cfg, s) && Follows(env, cfg, s, step, id, s')
    ensures Inv(env, cfg, s') && Grows(s, s')
  {
    hide Inv, Next, Run, Others;
    var others :| Others(others, id) && s' == Run(env, cfg, Next(env, cfg, s, step), others);
    NextKeeps(env, cfg, s, step);
    RunKeeps(env, cfg, Next(env, cfg, s, step), others);
    NextGrows(env, cfg, s, step);
    RunGrows(env, cfg, Next(env, cfg, s, step), others);
  }

  lemma JourneyGrows(env: Env, cfg: Config, j: Journey)
    requires Inv(env, cfg, j.arrives) && Travels(env, cfg, j)
    ensures Inv(env, cfg, j.gets) && Grows(j.arrives, j.gets) && j.gets.now <= j.checks.now
  {
    hide Inv, Follows;
    FollowsKeeps(env, cfg, j.arrives, Arrive(j.id, j.req), j.id, j.routes);
    FollowsKeeps(env, cfg, j.routes, Dispatched(j.id), j.id, j.gets);
    FollowsKeeps(env, cfg, j.gets, GetRecord(j.id, false), j.id, j.checks);
  }

  /** The record is there when the request arrives, nobody deletes or overwrites it before the Get,
      and it is unexpired when it is checked. */
  ghost predicate Reaches(j: Journey, c: Credentials) {
    && c.akid in j.arrives.store && j.arrives.store[c.akid] == c
    && Untouched(j.gets.trace, |j.arrives.trace|, c.akid) && j.checks.now < c.expiresAt
  }

  /** On either lane: a request that names a stored credential, presents its session token and
      verifies is forwarded as the credential's user, whatever other threads do in between. */
  lemma RecordRequestIsForwarded(env: Env, cfg: Config, j: Journey, proof: Proof, c: Credentials, again: nat)
    requires Inv(env, cfg, j.arrives) && Travels(env, cfg, j) && Reaches(j, c)
    requires Presents(j.req, proof) && AkidOf(proof) == c.akid && SessionToken(j.req, proof) == c.token
    requires VerifyProof(env, cfg, j.req, proof, c, j.verifies.now).Ok?
    ensures Forwards(env, cfg, j.sends, j.id, Cleared(LaneOf(proof), j.req, c.username, ByRecord(proof, c)), again)
  {
    hide Inv, Next, Travels, Presents, SessionToken, VerifyProof, AkidOf, LaneOf, Untouched, Forwards, ThreadAt;
    JourneyGrows(env, cfg, j);
    StoreStays(env, cfg, j.arrives, j.gets, c);
    RequestFetches(env, cfg, j, proof);
    RequestClears(env, cfg, j, proof, c);
    ClearedIsSent(env, cfg, j.sends, j.id, Cleared(LaneOf(proof), j.req, c.username, ByRecord(proof, c)), again);
  }

  /** The client's request as the data path sees it. */
  lemma ClientProof(env: Env, cfg: Config, c: Credentials, r: Req, host: Str, signedAt: int, now: int) returns (a: Auth)
    requires TokenNames(r.header) && CanonicalQuery.Decodable(r.rawQuery)
    requires c.akid != [] && FieldOk(c.akid) && FieldOk(cfg.up.region)
    requires 0 <= signedAt < END_OF_DATES && -cfg.skew <= now - (signedAt - signedAt % SECOND) <= cfg.skew
    ensures var req := ClientRequest(env, cfg, c, r, host, signedAt);
            && Presents(req, HeaderProof(a)) && a.akid == c.akid
            && SessionToken(req, HeaderProof(a)) == c.token
            && VerifyProof(env, cfg, req, HeaderProof(a), c, now).Ok?
  {
    hide ClientRequest, Dispatch, Parse, Verify, Get, FieldOk, TokenNames, CanonicalQuery.Decodable;
    ClientRequestVerifies(env, cfg, c, r, host, signedAt, now);
    a := Parse(Get(ClientRequest(env, cfg, c, r, host, signedAt).header, AUTHORIZATION)).value;
  }

  /** Progress on the header lane, in every run: a request signed with a stored credential is
      forwarded as the user the credential was minted for, whatever other threads do between its
      steps, when its verification comes within the skew. */
  lemma SignedRequestIsForwarded(env: Env, cfg: Config, j: Journey, c: Credentials, r: Req, host: Str, signedAt: int,
                                 again: nat)
    returns (a: Auth)
    requires Inv(env, cfg, j.arrives) && Travels(env, cfg, j) && Reaches(j, c)
    requires j.req == ClientRequest(env, cfg, c, r, host, signedAt)
    requires 0 <= signedAt < END_OF_DATES && -cfg.skew <= j.verifies.now - (signedAt - signedAt % SECOND) <= cfg.skew
    requires c.akid != [] && FieldOk(c.akid) && FieldOk(cfg.up.region)
    requires TokenNames(r.header) && CanonicalQuery.Decodable(r.rawQuery)
    ensures a.akid == c.akid
    ensures Forwards(env, cfg, j.sends, j.id,
                     Cleared(HeaderLane, j.req, c.username, ByRecord(HeaderProof(a), c)), again)
  {
    hide Inv, Travels, Reaches, ClientRequest, Presents, VerifyProof, SessionToken, FieldOk, TokenNames,
      CanonicalQuery.Decodable, Forwards;
    a := ClientProof(env, cfg, c, r, host, signedAt, j.verifies.now);
    RecordRequestIsForwarded(env, cfg, j, HeaderProof(a), c, again);
  }

  /** The client's URL as the data path sees it. */
  lemma UrlProof(env: Env, cfg: Config, c: Credentials, r: Req, draft: Presigned, others: seq<Pair>, now: int)
    requires UrlOk(draft) && draft.auth.akid == c.akid && draft.token == c.token
    requires ScopeOf(draft, Party(c.secret, cfg.up.region, SERVICE)) && InWindow(env, draft, now, cfg.skew)
    requires Get(r.header, AUTHORIZATION) == []
    ensures var s := SignUrl(env, r, draft, others, Party(c.secret, cfg.up.region, SERVICE));
            && s.expires >= 0 && AkidOf(QueryProof(s)) == c.akid
            && var req := UrlRequest(r, s, others);
               && Presents(req, QueryProof(s)) && SessionToken(req, QueryProof(s)) == c.token
               && VerifyProof(env, cfg, req, QueryProof(s), c, now).Ok?
  {
    hide SignUrl, UrlOk, InWindow, ScopeOf, UrlQuery, ParsePresigned, IsPresigned, VerifyPresigned, Get;
    var party := Party(c.secret, cfg.up.region, SERVICE);
    PresignThenVerify(env, r, draft, others, party, now, cfg.skew);
    SignedUrlOk(env, r, draft, others, party);
    NoHeaderGoesToQuery(UrlRequest(r, SignUrl(env, r, draft, others, party), others));
  }

  lemma NoHeaderGoesToQuery(req: Req)
    requires Get(req.header, AUTHORIZATION) == [] && IsPresigned(req.rawQuery)
    ensures Dispatch(req) == ToQuery
  {
    hide IsPresigned, Get;
  }

  /** Progress on the query lane, in every run: a URL presigned with a stored credential is forwarded
      as the user the credential was minted for, whatever other threads do between the steps, when its
      verification comes inside its window. */
  lemma SignedUrlIsForwarded(env: Env, cfg: Config, j: Journey, c: Credentials, r: Req, draft: Presigned,
                             others: seq<Pair>, again: nat)
    requires Inv(env, cfg, j.arrives) && Travels(env, cfg, j) && Reaches(j, c)
    requires UrlOk(draft) && draft.auth.akid == c.akid && draft.token == c.token
    requires ScopeOf(draft, Party(c.secret, cfg.up.region, SERVICE)) && InWindow(env, draft, j.verifies.now, cfg.skew)
    requires Get(r.header, AUTHORIZATION) == []
    requires var s := SignUrl(env, r, draft, others, Party(c.secret, cfg.up.region, SERVICE));
             s.expires >= 0 && j.req == UrlRequest(r, s, others)
    ensures var s := SignUrl(env, r, draft, others, Party(c.secret, cfg.up.region, SERVICE));
            Forwards(env, cfg, j.sends, j.id, Cleared(QueryLane, j.req, c.username, ByRecord(QueryProof(s), c)), again)
  {
    hide Inv, Travels, Reaches, SignUrl, UrlOk, UrlRequest, ScopeOf, InWindow, Presents, VerifyProof, SessionToken,
      Get, Forwards;
    var s := SignUrl(env, r, draft, others, Party(c.secret, cfg.up.region, SERVICE));
    UrlProof(env, cfg, c, r, draft, others, j.verifies.now);
    RecordRequestIsForwarded(env, cfg, j, QueryProof(s), c, again);
  }

  // ---- A request with a bearer token ----

  /** The states in which thread `id` takes its four steps for a bearer request. */
  datatype BearerJourney = BearerJourney(
    id: nat, req: Req, arrives: State, routes: State, validates: State, sends: State)

  ghost predicate TravelsByToken(env: Env, cfg: Config, j: BearerJourney, i: Identity) {
    && j.id !in j.arrives.threads
    && Follows(env, cfg, j.arrives, Arrive(j.id, j.req), j.id, j.routes)
    && Follows(env, cfg, j.routes, Dispatched(j.id), j.id, j.validates)
    && Follows(env, cfg, j.validates, ValidateBearer(j.id, Claims(i)), j.id, j.sends)
  }

  /** Progress on the bearer lane, in every run: with the lane enabled, a request whose token the
      validator accepts for a name the policy allows is forwarded as that user, whatever other
      threads do between its steps. */
  lemma BearerRequestIsForwarded(env: Env, cfg: Config, j: BearerJourney, token: Str, i: Identity, again: nat)
    requires TravelsByToken(env, cfg, j, i) && cfg.acceptBearer && ValidUsername(i.username)
    requires Get(j.req.header, AUTHORIZATION) == BEARER + token
    ensures Forwards(env, cfg, j.sends, j.id, Cleared(BearerLane, j.req, i.username, ByToken(token)), again)
  {
    hide Follows, MoveOf, Dispatch, ValidUsername, Forwards;
    BearerGoesToBearer(j.req, token);
    ArriveMoves(env, cfg, j.arrives, j.id, j.req);
    Moves(env, cfg, j.arrives, Arrive(j.id, j.req), j.routes, Move(Fresh(j.req), Some(Arrived(j.req)), Nothing));
    DispatchBearer(env, cfg, j.routes, j.id, j.req, token);
    Moves(env, cfg, j.routes, Dispatched(j.id), j.validates, Move(NeedsToken(j.req, token), None, Nothing));
    BearerMoves(env, cfg, j.validates, j.id, j.req, token, i);
    var cleared := Cleared(BearerLane, j.req, i.username, ByToken(token));
    Moves(env, cfg, j.validates, ValidateBearer(j.id, Claims(i)), j.sends,
          Move(cleared, Some(Accepted(token, i)), Outcome(BearerLane, Success)));
    ClearedIsSent(env, cfg, j.sends, j.id, cleared, again);
  }

  lemma BearerGoesToBearer(req: Req, token: Str)
    requires Get(req.header, AUTHORIZATION) == BEARER + token
    ensures Dispatch(req) == ToBearer(token)
  {
    hide Get, IsPresigned;
    assert (BEARER + token)[|BEARER|..] == token;
  }

  // ---- An exchange makes a credential ----

  lemma FormMoves(env: Env, cfg: Config, s: State, id: nat, form: Exchange.Form)
    requires ThreadAt(s, id) == Some(Asking(form)) && Exchange.CheckForm(form, cfg.allowlist).Proceed?
    ensures var p := Exchange.CheckForm(form, cfg.allowlist);
            MoveOf(env, cfg, s, CheckTheForm(id)) == Some(Move(Exchanging(p.token, p.requested), None, Nothing))
  {
    hide MoveOf, Exchange.CheckForm, Fail;
    OtherTurn(env, cfg, s, id, Asking(form), NOBODY, NO_DRAW);
  }

  lemma ExchangeMoves(env: Env, cfg: Config, s: State, id: nat, token: Str, requested: int, i: Identity)
    requires ThreadAt(s, id) == Some(Exchanging(token, requested)) && ValidUsername(i.username)
    ensures MoveOf(env, cfg, s, ValidateExchange(id, Claims(i))) ==
            Some(Move(Identified(i, requested), Some(Accepted(token, i)), Nothing))
  {
    hide MoveOf, ValidUsername, Fail;
    OtherTurn(env, cfg, s, id, Exchanging(token, requested), i, NO_DRAW);
  }

  /** What a draw makes of an identity at some moment. */
  function MintedFrom(cfg: Config, now: int, i: Identity, requested: int, draw: Draw): Credentials {
    Credentials(MintedAkid(draw.akid), draw.secret, draw.session, i.username, i.issuer,
                now + Lifetime.Ttl(i.expiry, now, cfg.maxDuration, requested))
  }

  lemma MintMoves(env: Env, cfg: Config, s: State, id: nat, i: Identity, requested: int, draw: Draw)
    requires ThreadAt(s, id) == Some(Identified(i, requested)) && !draw.failed
    requires Lifetime.Ttl(i.expiry, s.now, cfg.maxDuration, requested) > 0
    ensures var c := MintedFrom(cfg, s.now, i, requested, draw);
            MoveOf(env, cfg, s, Mint(id, draw)) == Some(Move(Minted(c), Some(Made(c)), Nothing))
  {
    hide MoveOf, Lifetime.Ttl, MintedAkid, Fail;
    OtherTurn(env, cfg, s, id, Identified(i, requested), i, draw);
  }

  lemma PutMoves(env: Env, cfg: Config, s: State, id: nat, c: Credentials)
    requires ThreadAt(s, id) == Some(Minted(c))
    ensures MoveOf(env, cfg, s, PutRecord(id, false)) ==
            Some(Move(Exchanged(Exchange.Granted), Some(Stored(c)), Report(Exchange.Granted)))
  {
    hide MoveOf, Fail;
    OtherTurn(env, cfg, s, id, Minted(c), NOBODY, NO_DRAW);
  }

  lemma AskMoves(env: Env, cfg: Config, s: State, id: nat, form: Exchange.Form)
    requires id !in s.threads
    ensures MoveOf(env, cfg, s, ArriveExchange(id, form)) == Some(Move(Asking(form), Some(Asked(form)), Nothing))
  {
    hide Continue;
  }

  /** The states in which thread `id` takes its five steps for a form, anything by other threads in
      between; `i` is what the validator makes of the token. */
  datatype Grant = Grant(
    id: nat, form: Exchange.Form, i: Identity, draw: Draw,
    asks: State, checks: State, validates: State, mints: State, puts: State)

  ghost predicate Exchanges(env: Env, cfg: Config, g: Grant) {
    && g.id !in g.asks.threads
    && Follows(env, cfg, g.asks, ArriveExchange(g.id, g.form), g.id, g.checks)
    && Follows(env, cfg, g.checks, CheckTheForm(g.id), g.id, g.validates)
    && Follows(env, cfg, g.validates, ValidateExchange(g.id, Claims(g.i)), g.id, g.mints)
    && Follows(env, cfg, g.mints, Mint(g.id, g.draw), g.id, g.puts)
  }

  function Requested(cfg: Config, g: Grant): int {
    var p := Exchange.CheckForm(g.form, cfg.allowlist);
    if p.Proceed? then p.requested else 0
  }

  /** The form passes the checks, the policy allows the name, and there is life left at the minting. */
  predicate Grantable(cfg: Config, g: Grant) {
    && Exchange.CheckForm(g.form, cfg.allowlist).Proceed? && ValidUsername(g.i.username) && !g.draw.failed
    && Lifetime.Ttl(g.i.expiry, g.mints.now, cfg.maxDuration, Requested(cfg, g)) > 0
  }

  /** The credential it ends with. */
  function Granted(cfg: Config, g: Grant): Credentials {
    MintedFrom(cfg, g.mints.now, g.i, Requested(cfg, g), g.draw)
  }

  /** The granted life: never past the token's exp, max_duration or the DurationSeconds that the form
      states, and, where no duration wraps, ending exactly at the earliest of them. */
  ghost predicate LivesFor(cfg: Config, g: Grant, end: int) {
    && g.mints.now < end <= g.i.expiry
    && (0 < cfg.maxDuration ==> end <= g.mints.now + cfg.maxDuration * SECOND)
    && (0 < cfg.maxDuration ==> forall n: nat :: g.form.duration == FormatNat(n) ==> end <= g.mints.now + n * SECOND)
    && (0 < cfg.maxDuration <= 9_223_372_036 && g.form.duration == [] ==>
          end == g.i.expiry || end == g.mints.now + cfg.maxDuration * SECOND)
    && (0 < cfg.maxDuration <= 9_223_372_036 ==>
          forall n: nat :: g.form.duration == FormatNat(n) && n <= 9_223_372_036 ==>
            end == g.i.expiry || end == g.mints.now + cfg.maxDuration * SECOND || end == g.mints.now + n * SECOND)
  }

  lemma GrantLives(cfg: Config, g: Grant)
    requires Grantable(cfg, g)
    ensures LivesFor(cfg, g, Granted(cfg, g).expiresAt)
  {
    hide Lifetime.Ttl, Exchange.CheckForm, MintedAkid, ValidUsername, FormatNat;
    var now, requested := g.mints.now, Requested(cfg, g);
    Lifetime.WithinToken(g.i.expiry, now, cfg.maxDuration, requested);
    if 0 < cfg.maxDuration {
      Lifetime.MintedLifetimeBounded(g.i.expiry, now, cfg.maxDuration, requested);
    }
    if 0 < cfg.maxDuration <= 9_223_372_036 && requested <= 9_223_372_036 {
      Lifetime.ExpiryIsMin(g.i.expiry, now, cfg.maxDuration, requested);
    }
    NoDurationRequested(cfg, g);
    forall n: nat | g.form.duration == FormatNat(n) ensures requested == n && n > 0 {
      Exchange.RequestedIsPrinted(g.form, cfg.allowlist, n);
    }
  }

  lemma NoDurationRequested(cfg: Config, g: Grant)
    requires Grantable(cfg, g)
    ensures g.form.duration == [] ==> Requested(cfg, g) == 0
  {
    hide Exchange.CheckForm, Lifetime.Ttl, ValidUsername;
    Exchange.FormDecision(g.form, cfg.allowlist);
  }

  /** Progress of an exchange, in every run: a form that passes the checks, with a token the
      validator accepts and some life left when it is minted, stores a credential for its user that
      lives exactly the effective lifetime, whatever other threads do between its steps. */
  lemma ExchangeStores(env: Env, cfg: Config, g: Grant)
    requires Exchanges(env, cfg, g) && Grantable(cfg, g)
    ensures var s' := Next(env, cfg, g.puts, PutRecord(g.id, false));
            var c := Granted(cfg, g);
            && s'.store == g.puts.store[c.akid := c] && s'.now == g.puts.now
            && s'.trace == g.puts.trace + [Event(g.puts.now, g.id, Stored(c))]
            && ThreadAt(s', g.id) == Some(Exchanged(Exchange.Granted))
            && c.username == g.i.username && c.issuer == g.i.issuer
            && LivesFor(cfg, g, c.expiresAt)
  {
    hide Follows, MoveOf, Next, Exchange.CheckForm, Lifetime.Ttl, MintedAkid, ValidUsername;
    var p := Exchange.CheckForm(g.form, cfg.allowlist);
    var c := Granted(cfg, g);
    AskMoves(env, cfg, g.asks, g.id, g.form);
    Moves(env, cfg, g.asks, ArriveExchange(g.id, g.form), g.checks, Move(Asking(g.form), Some(Asked(g.form)), Nothing));
    FormMoves(env, cfg, g.checks, g.id, g.form);
    Moves(env, cfg, g.checks, CheckTheForm(g.id), g.validates, Move(Exchanging(p.token, p.requested), None, Nothing));
    ExchangeMoves(env, cfg, g.validates, g.id, p.token, p.requested, g.i);
    Moves(env, cfg, g.validates, ValidateExchange(g.id, Claims(g.i)), g.mints,
          Move(Identified(g.i, p.requested), Some(Accepted(p.token, g.i)), Nothing));
    MintMoves(env, cfg, g.mints, g.id, g.i, p.requested, g.draw);
    Moves(env, cfg, g.mints, Mint(g.id, g.draw), g.puts, Move(Minted(c), Some(Made(c)), Nothing));
    GrantLives(cfg, g);
    PutMoves(env, cfg, g.puts, g.id, c);
    NextIs(env, cfg, g.puts, PutRecord(g.id, false),
           Move(Exchanged(Exchange.Granted), Some(Stored(c)), Report(Exchange.Granted)));
  }

  // ---- From token to upstream ----

  lemma MintedKeyFits(cfg: Config, g: Grant)
    ensures Granted(cfg, g).akid != [] && FieldOk(Granted(cfg, g).akid)
  {
    hide FieldOk, MintedAkid, Lifetime.Ttl;
    MintedAkidFits(g.draw.akid);
  }

  lemma ExchangeKeeps(env: Env, cfg: Config, g: Grant)
    requires Inv(env, cfg, g.asks) && Exchanges(env, cfg, g)
    ensures Inv(env, cfg, g.puts)
  {
    hide Inv, Follows;
    FollowsKeeps(env, cfg, g.asks, ArriveExchange(g.id, g.form), g.id, g.checks);
    FollowsKeeps(env, cfg, g.checks, CheckTheForm(g.id), g.id, g.validates);
    FollowsKeeps(env, cfg, g.validates, ValidateExchange(g.id, Claims(g.i)), g.id, g.mints);
    FollowsKeeps(env, cfg, g.mints, Mint(g.id, g.draw), g.id, g.puts);
  }

  /** The exchange is done before the request arrives, nobody deletes or overwrites its record before
      the request's Get, and the granted life has not ended at the request's check. */
  ghost predicate Leads(env: Env, cfg: Config, g: Grant, between: seq<Step>, j: Journey) {
    && j.arrives == Run(env, cfg, Next(env, cfg, g.puts, PutRecord(g.id, false)), between)
    && Untouched(j.gets.trace, |g.puts.trace| + 1, Granted(cfg, g).akid)
    && j.checks.now < Granted(cfg, g).expiresAt
  }

  lemma GrantReaches(env: Env, cfg: Config, g: Grant, between: seq<Step>, j: Journey)
    requires Inv(env, cfg, g.asks) && Exchanges(env, cfg, g) && Grantable(cfg, g)
    requires Travels(env, cfg, j) && Leads(env, cfg, g, between, j)
    ensures Inv(env, cfg, j.arrives) && Reaches(j, Granted(cfg, g))
  {
    hide Inv, Next, Run, Travels, Exchanges, Grantable, Granted, Lifetime.Ttl;
    ExchangeStores(env, cfg, g);
    ExchangeKeeps(env, cfg, g);
    var done := Next(env, cfg, g.puts, PutRecord(g.id, false));
    NextKeeps(env, cfg, g.puts, PutRecord(g.id, false));
    RunKeeps(env, cfg, done, between);
    RunGrows(env, cfg, done, between);
    JourneyGrows(env, cfg, j);
    StoreStays(env, cfg, done, j.arrives, Granted(cfg, g));
  }

  /** From the token to the upstream, in every run: once an exchange has put its credential, a
      request signed with that credential is forwarded as the token's user, whatever happens in
      between. */
  lemma ExchangedUserIsServed(env: Env, cfg: Config, g: Grant, between: seq<Step>, j: Journey,
                              r: Req, host: Str, signedAt: int, again: nat)
    returns (a: Auth)
    requires Inv(env, cfg, g.asks) && Exchanges(env, cfg, g) && Grantable(cfg, g)
    requires Travels(env, cfg, j) && Leads(env, cfg, g, between, j)
    requires j.req == ClientRequest(env, cfg, Granted(cfg, g), r, host, signedAt)
    requires 0 <= signedAt < END_OF_DATES && -cfg.skew <= j.verifies.now - (signedAt - signedAt % SECOND) <= cfg.skew
    requires FieldOk(cfg.up.region) && TokenNames(r.header) && CanonicalQuery.Decodable(r.rawQuery)
    ensures a.akid == Granted(cfg, g).akid
    ensures Forwards(env, cfg, j.sends, j.id,
                     Cleared(HeaderLane, j.req, g.i.username, ByRecord(HeaderProof(a), Granted(cfg, g))), again)
  {
    hide Inv, Next, Travels, Exchanges, Grantable, Leads, Reaches, ClientRequest, FieldOk, TokenNames,
      CanonicalQuery.Decodable, Forwards, Lifetime.Ttl, MintedAkid;
    GrantReaches(env, cfg, g, between, j);
    MintedKeyFits(cfg, g);
    a := SignedRequestIsForwarded(env, cfg, j, Granted(cfg, g), r, host, signedAt, again);
  }

  // ---- Sweeps and passing through ----

  lemma SweepTurn(env: Env, cfg: Config, s: State, id: nat, cutoff: int)
    ensures id !in s.threads ==>
              MoveOf(env, cfg, s, ReadCutoff(id)) ==
              Some(Move(Sweeping(s.now - cfg.retention), Some(CutoffRead(s.now - cfg.retention)), Nothing))
    ensures ThreadAt(s, id) == Some(Sweeping(cutoff)) ==>
              MoveOf(env, cfg, s, RunSweep(id)) == Some(Move(Idle, Some(Proxy.Swept(cutoff)), Nothing))
  {
    hide RouteMove, GetMove, CheckMove, VerifyMove, SendMove, BearerMove, FormMove, ExchangeMove, MintMove, PutMove,
      RevokeGetMove, RevokeDeleteMove;
  }

  /** A sweep deletes every record that had expired for longer than the retention when it read the
      clock, and no other, whatever other threads do in between. */
  lemma SweepDeletes(env: Env, cfg: Config, id: nat, s0: State, s1: State, akid: Str)
    requires id !in s0.threads && Follows(env, cfg, s0, ReadCutoff(id), id, s1)
    ensures var s' := Next(env, cfg, s1, RunSweep(id));
            && (akid in s'.store <==> akid in s1.store && s1.store[akid].expiresAt >= s0.now - cfg.retention)
            && (akid in s'.store ==> s'.store[akid] == s1.store[akid])
  {
    hide Next, Follows, MoveOf;
    var cutoff := s0.now - cfg.retention;
    SweepTurn(env, cfg, s0, id, cutoff);
    Moves(env, cfg, s0, ReadCutoff(id), s1, Move(Sweeping(cutoff), Some(CutoffRead(cutoff)), Nothing));
    SweepTurn(env, cfg, s1, id, cutoff);
    NextIs(env, cfg, s1, RunSweep(id), Move(Idle, Some(Proxy.Swept(cutoff)), Nothing));
    SweptMeans(s1.store, cutoff, akid);
  }

  /** Outside strict mode a request without any authentication is passed through as it came; in strict
      mode it is not. */
  lemma UnauthenticatedRequest(env: Env, cfg: Config, id: nat, req: Req, s0: State, s1: State)
    requires id !in s0.threads && Follows(env, cfg, s0, Arrive(id, req), id, s1)
    requires Get(req.header, "Authorization") == [] && !IsPresigned(req.rawQuery)
    ensures var s' := Next(env, cfg, s1, Dispatched(id));
            && s'.trace == (if cfg.strict then s1.trace else s1.trace + [Event(s1.now, id, PassedThrough(req))])
            && s'.counters == s1.counters && ThreadAt(s', id) == Some(Unauthenticated)
  {
    hide Follows, MoveOf, Dispatch, IsPresigned, Get, Effect, RouteMove, GetMove, CheckMove, VerifyMove, SendMove,
      BearerMove;
    ArriveMoves(env, cfg, s0, id, req);
    Moves(env, cfg, s0, Arrive(id, req), s1, Move(Fresh(req), Some(Arrived(req)), Nothing));
    RequestTurn(env, cfg, s1, id, Fresh(req), NO_VERDICT, 0);
    NoHeaderGoesToNobody(req);
    NobodyMoves(cfg, req);
  }

  lemma NoHeaderGoesToNobody(req: Req)
    requires Get(req.header, AUTHORIZATION) == [] && !IsPresigned(req.rawQuery)
    ensures Dispatch(req) == ToNobody
  {
    hide IsPresigned, Get;
  }

  lemma NobodyMoves(cfg: Config, req: Req)
    requires Dispatch(req) == ToNobody
    ensures RouteMove(cfg, req) == Move(Unauthenticated, if cfg.strict then None else Some(PassedThrough(req)), Nothing)
  {
    hide Dispatch, Parse, ParsePresigned, Reject;
  }

  // ---- Revocation takes effect ----

  lemma RevokeMoves(env: Env, cfg: Config, s: State, id: nat, akid: Str)
    requires id !in s.threads
    ensures MoveOf(env, cfg, s, ArriveRevoke(id, akid)) == Some(Move(Revoking(akid), None, Nothing))
  {
    hide Continue;
  }

  lemma RevocableIsDeleted(env: Env, cfg: Config, s: State, id: nat, akid: Str)
    requires ThreadAt(s, id) == Some(Revocable(akid))
    ensures var s' := Next(env, cfg, s, RevokeDelete(id, false));
            s'.store == s.store - {akid} && s'.trace == s.trace + [Event(s.now, id, Deleted(akid))]
  {
    hide MoveOf, Count;
    OtherTurn(env, cfg, s, id, Revocable(akid), NOBODY, NO_DRAW);
  }

  /** A revocation that finds its key deletes it, whatever other threads do between its steps. */
  lemma RevokeDeletes(env: Env, cfg: Config, id: nat, akid: Str, s0: State, s1: State, s2: State)
    requires id !in s0.threads && akid in s1.store
    requires Follows(env, cfg, s0, ArriveRevoke(id, akid), id, s1)
             && Follows(env, cfg, s1, RevokeGet(id, false), id, s2)
    ensures var s' := Next(env, cfg, s2, RevokeDelete(id, false));
            s'.store == s2.store - {akid} && s'.trace == s2.trace + [Event(s2.now, id, Deleted(akid))]
  {
    hide Next, Follows, MoveOf;
    RevokeMoves(env, cfg, s0, id, akid);
    Moves(env, cfg, s0, ArriveRevoke(id, akid), s1, Move(Revoking(akid), None, Nothing));
    OtherTurn(env, cfg, s1, id, Revoking(akid), NOBODY, NO_DRAW);
    Moves(env, cfg, s1, RevokeGet(id, false), s2, Move(Revocable(akid), None, Nothing));
    RevocableIsDeleted(env, cfg, s2, id, akid);
  }
}
