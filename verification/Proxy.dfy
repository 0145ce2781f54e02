/** The whole proxy as a state machine: token exchanges, revocations, sweeps and data-path requests
    are in-flight threads whose steps interleave freely. Every store access is one atomic step
    because it holds the store's mutex, and every clock reading is a step of its own. A step is a
    move of one thread, and what a move did is logged with the thread's id and the clock. */
module Proxy {
  import opened Seqs
  import opened Strings
  import opened Primitives
  import opened Http
  import opened Authorization
  import opened SigV4
  import opened Presign
  import opened Forward
  import opened Store
  import Exchange
  import Lifetime
  import StripQuery

  datatype Config = Config(
    up: Upstream, strict: bool, acceptBearer: bool, skew: int,
    maxDuration: int, allowlist: seq<Str>, retention: nat)

  /** What the token validator maps a token to. */
  datatype Identity = Identity(username: Str, issuer: Str, expiry: int)

  /** The validator's answer; its last step is the username policy. */
  datatype Verdict = Claims(identity: Identity) | Fails(error: Exchange.TokenError)

  function Policy(v: Verdict): (r: Verdict)
    ensures r.Claims? <==> v.Claims? && ValidUsername(v.identity.username)
    ensures r.Claims? || v.Fails? ==> r == v
    ensures r.Fails? && v.Claims? ==> r.error == Exchange.BadUsername
  {
    if v.Claims? && !ValidUsername(v.identity.username) then Fails(Exchange.BadUsername) else v
  }

  datatype Lane = BearerLane | HeaderLane | QueryLane

  /** The `result` label of the three verification counters. */
  datatype Label =
    | Success | Disabled | TokenRefused(error: Exchange.TokenError)
    | BadSyntax | StoreDown | UnknownKey | ExpiredKey | BadSession
    | TooSkewed | BadScope | NoDate | Mismatch | UrlExpired

  function HeaderLabel(e: Error): Label {
    match e
    case Skew => TooSkewed
    case Scope => BadScope
    case MissingDate => NoDate
    case Malformed => BadSyntax
    case _ => Mismatch
  }

  function QueryLabel(e: Error): Label {
    match e
    case PresignExpired => UrlExpired
    case Skew => TooSkewed
    case Scope => BadSyntax
    case Malformed => BadSyntax
    case _ => Mismatch
  }

  /** On the header lane the result label tells the verification errors apart; on the query lane
      only scope and syntax share one. No error is counted as a success. */
  lemma LabelsTellErrorsApart(e1: Error, e2: Error)
    requires e1 != e2
    ensures e1 != PresignExpired && e2 != PresignExpired ==> HeaderLabel(e1) != HeaderLabel(e2)
    ensures QueryLabel(e1) == QueryLabel(e2) && e1 != MissingDate && e2 != MissingDate ==>
              {e1, e2} == {Scope, Malformed}
    ensures HeaderLabel(e1) != Success && QueryLabel(e1) != Success
  {
  }

  /** The parsed authentication of a request that names a stored credential. */
  datatype Proof = HeaderProof(a: Auth) | QueryProof(p: Presigned)

  function AkidOf(proof: Proof): Str {
    match proof case HeaderProof(a) => a.akid case QueryProof(p) => p.auth.akid
  }

  function LaneOf(proof: Proof): Lane {
    if proof.HeaderProof? then HeaderLane else QueryLane
  }

  function SessionToken(req: Req, proof: Proof): Str {
    match proof case HeaderProof(_) => Get(req.header, SECURITY_TOKEN) case QueryProof(p) => p.token
  }

  function VerifyProof(env: Env, cfg: Config, req: Req, proof: Proof, c: Credentials, now: int): Result<()> {
    var party := Party(c.secret, cfg.up.region, SERVICE);
    match proof
    case HeaderProof(a) => Verify(env, req, a, party, now, cfg.skew)
    case QueryProof(p) => VerifyPresigned(env, req, p, party, now, cfg.skew)
  }

  function ErrorLabel(proof: Proof, e: Error): Label {
    if proof.HeaderProof? then HeaderLabel(e) else QueryLabel(e)
  }

  /** Why a request may be forwarded: its bearer token, or the record its access key names. */
  datatype Why = ByToken(token: Str) | ByRecord(proof: Proof, cred: Credentials)

  /** The request handed to applyIdentity: the query lane strips the auth parameters first. */
  function Stripped(req: Req, why: Why): Req {
    if why.ByRecord? && why.proof.QueryProof? then req.(rawQuery := StripQuery.Strip(req.rawQuery)) else req
  }

  function AuthFor(why: Why): Option<Auth> {
    if why.ByRecord? && why.proof.HeaderProof? then Some(why.proof.a) else None
  }

  // ---- Dispatch ----

  const BEARER: Str := "Bearer "

  datatype Route = ToBearer(token: Str) | ToHeader(header: Str) | ToQuery | ToNobody

  function Dispatch(req: Req): Route {
    var h := Get(req.header, AUTHORIZATION);
    if HasPrefix(h, BEARER) then ToBearer(h[|BEARER|..])
    else if HasPrefix(h, ALGORITHM + SPACE) then ToHeader(h)
    else if h == [] && IsPresigned(req.rawQuery) then ToQuery
    else ToNobody
  }

  /** The authentication that the route's parser finds in the request. */
  ghost predicate Presents(req: Req, proof: Proof) {
    match proof
    case HeaderProof(a) => Dispatch(req).ToHeader? && Parse(Get(req.header, AUTHORIZATION)) == Ok(a)
    case QueryProof(p) => Dispatch(req).ToQuery? && ParsePresigned(req.rawQuery) == Ok(p)
  }

  // ---- State ----

  datatype Thread =
    // a request
    | Fresh(req: Req)
    | NeedsToken(req: Req, token: Str)
    | NeedsRecord(req: Req, proof: Proof)
    | HasAnswer(req: Req, proof: Proof, found: Option<Credentials>)
    | Checked(req: Req, proof: Proof, cred: Credentials)
    | Cleared(lane: Lane, req: Req, user: Str, why: Why)
    | Done(lane: Lane, result: Label)
    | Unauthenticated
    // a token exchange
    | Asking(form: Exchange.Form)
    | Exchanging(token: Str, requested: int)
    | Identified(identity: Identity, requested: int)
    | Minted(cred: Credentials)
    | Exchanged(code: Exchange.Code)
    // a revocation or a sweep
    | Revoking(akid: Str)
    | Revocable(akid: Str)
    | Sweeping(cutoff: int)
    | Idle

  /** Why an exchange ended without a credential. */
  datatype Cause = BadForm | BadToken(error: Exchange.TokenError) | NoLife | NoDraw | NotStored

  /** What a thread did. `again` is the second clock reading of applyIdentity. */
  datatype Act =
    | Arrived(req: Req)
    | Accepted(token: Str, identity: Identity)
    | Got(akid: Str, found: Option<Credentials>)
    | Admitted(cred: Credentials)
    | Proved(cred: Credentials)
    | Sent(lane: Lane, req: Req, out: Req, user: Str, why: Why, again: int)
    | Rejected(lane: Lane, result: Label)
    | PassedThrough(req: Req)
    | Asked(form: Exchange.Form)
    | Made(cred: Credentials)
    | Stored(cred: Credentials)
    | Answered(code: Exchange.Code, cause: Cause)
    | Deleted(akid: Str)
    | CutoffRead(cutoff: int)
    | Swept(cutoff: int)

  datatype Event = Event(at: int, id: nat, act: Act)

  /** Result counters: the multiplicity of a label is its counter's value. */
  datatype Counters = Counters(
    bearer: multiset<Label>, header: multiset<Label>, query: multiset<Label>, exchanges: multiset<Exchange.Code>)

  function CounterOf(c: Counters, lane: Lane): multiset<Label> {
    match lane case BearerLane => c.bearer case HeaderLane => c.header case QueryLane => c.query
  }

  /** What a step counts: the result of a request, or the one result of an exchange. */
  datatype Tally = Nothing | Outcome(lane: Lane, result: Label) | Report(code: Exchange.Code)

  function Count(c: Counters, tally: Tally): Counters {
    match tally
    case Nothing => c
    case Outcome(BearerLane, result) => c.(bearer := c.bearer + multiset{result})
    case Outcome(HeaderLane, result) => c.(header := c.header + multiset{result})
    case Outcome(QueryLane, result) => c.(query := c.query + multiset{result})
    case Report(code) => c.(exchanges := c.exchanges + multiset{code})
  }

  datatype State = State(
    now: int, store: Records, threads: map<nat, Thread>, trace: seq<Event>, counters: Counters)

  function Init(now: int): State {
    State(now, map[], map[], [], Counters(multiset{}, multiset{}, multiset{}, multiset{}))
  }

  // ---- Moves ----

  /** One move of a thread: where it goes, what it does, what it counts. */
  datatype Move = Move(next: Thread, act: Option<Act>, tally: Tally)

  /** What an act does to the store. */
  function Effect(m: Records, act: Act): Records {
    match act
    case Stored(c) => m[c.akid := c]
    case Deleted(akid) => m - {akid}
    case Swept(cutoff) => Store.Swept(m, cutoff)
    case _ => m
  }

  function Apply(s: State, id: nat, m: Move): State {
    var moved := s.(threads := s.threads[id := m.next], counters := Count(s.counters, m.tally));
    match m.act
    case None => moved
    case Some(act) => moved.(store := Effect(s.store, act), trace := s.trace + [Event(s.now, id, act)])
  }

  /** The `reject` closure: count the result, answer, done. */
  function Reject(lane: Lane, result: Label): Move {
    Move(Done(lane, result), Some(Rejected(lane, result)), Outcome(lane, result))
  }

  /** An exchange that ends without a credential. */
  function Fail(code: Exchange.Code, cause: Cause): Move {
    Move(Exchanged(code), Some(Answered(code, cause)), Report(code))
  }

  function RouteMove(cfg: Config, req: Req): Move {
    match Dispatch(req)
    case ToBearer(token) =>
      if cfg.acceptBearer then Move(NeedsToken(req, token), None, Nothing) else Reject(BearerLane, Disabled)
    case ToHeader(header) => (
      match Parse(header)
      case Err(_) => Reject(HeaderLane, BadSyntax)
      case Ok(a) => Move(NeedsRecord(req, HeaderProof(a)), None, Nothing))
    case ToQuery => (
      match ParsePresigned(req.rawQuery)
      case Err(_) => Reject(QueryLane, BadSyntax)
      case Ok(p) => Move(NeedsRecord(req, QueryProof(p)), None, Nothing))
    case ToNobody => Move(Unauthenticated, if cfg.strict then None else Some(PassedThrough(req)), Nothing)
  }

  function BearerMove(req: Req, token: Str, verdict: Verdict): Move {
    match Policy(verdict)
    case Fails(e) => Reject(BearerLane, TokenRefused(e))
    case Claims(i) =>
      Move(Cleared(BearerLane, req, i.username, ByToken(token)), Some(Accepted(token, i)), Outcome(BearerLane, Success))
  }

  function GetMove(store: Records, req: Req, proof: Proof, storeError: bool): Move {
    var found := Store.Lookup(store, AkidOf(proof));
    if storeError then Reject(LaneOf(proof), StoreDown)
    else Move(HasAnswer(req, proof, found), Some(Got(AkidOf(proof), found)), Nothing)
  }

  function CheckMove(now: int, req: Req, proof: Proof, found: Option<Credentials>): Move {
    if found.None? then Reject(LaneOf(proof), UnknownKey)
    else if Expired(found.value, now) then Reject(LaneOf(proof), ExpiredKey)
    else if SessionToken(req, proof) != found.value.token then Reject(LaneOf(proof), BadSession)
    else Move(Checked(req, proof, found.value), Some(Admitted(found.value)), Nothing)
  }

  function VerifyMove(env: Env, cfg: Config, now: int, req: Req, proof: Proof, c: Credentials): Move {
    match VerifyProof(env, cfg, req, proof, c, now)
    case Err(e) => Reject(LaneOf(proof), ErrorLabel(proof, e))
    case Ok(_) =>
      Move(Cleared(LaneOf(proof), req, c.username, ByRecord(proof, c)), Some(Proved(c)),
           Outcome(LaneOf(proof), Success))
  }

  ghost function SendMove(env: Env, cfg: Config, now: int, t: Thread, again: int): Move
    requires t.Cleared?
  {
    var out := ApplyIdentity(env, cfg.up, Stripped(t.req, t.why), t.user, AuthFor(t.why), now, again);
    Move(Done(t.lane, Success), Some(Sent(t.lane, t.req, out, t.user, t.why, again)), Nothing)
  }

  function FormMove(cfg: Config, form: Exchange.Form): Move {
    match Exchange.CheckForm(form, cfg.allowlist)
    case Refuse(code) => Fail(code, BadForm)
    case Proceed(token, requested) => Move(Exchanging(token, requested), None, Nothing)
  }

  function ExchangeMove(token: Str, requested: int, verdict: Verdict): Move {
    match Policy(verdict)
    case Fails(e) => Fail(Exchange.MapTokenError(e), BadToken(e))
    case Claims(i) => Move(Identified(i, requested), Some(Accepted(token, i)), Nothing)
  }

  /** The random draws and whether drawing failed are inputs. */
  datatype Draw = Draw(akid: seq<Byte>, secret: Str, session: Str, failed: bool)

  function MintMove(cfg: Config, now: int, i: Identity, requested: int, draw: Draw): Move {
    var ttl := Lifetime.Ttl(i.expiry, now, cfg.maxDuration, requested);
    if ttl <= 0 then Fail(Exchange.ExpiredIdentity, NoLife)
    else if draw.failed then Fail(Exchange.ServiceFailure, NoDraw)
    else
      var cred := Credentials(MintedAkid(draw.akid), draw.secret, draw.session, i.username, i.issuer, now + ttl);
      Move(Minted(cred), Some(Made(cred)), Nothing)
  }

  function PutMove(cred: Credentials, storeError: bool): Move {
    if storeError then Fail(Exchange.ServiceFailure, NotStored)
    else Move(Exchanged(Exchange.Granted), Some(Stored(cred)), Report(Exchange.Granted))
  }

  function RevokeGetMove(store: Records, akid: Str, storeError: bool): Move {
    Move(if storeError || akid !in store then Idle else Revocable(akid), None, Nothing)
  }

  function RevokeDeleteMove(akid: Str, storeError: bool): Move {
    Move(Idle, if storeError then None else Some(Deleted(akid)), Nothing)
  }

  // ---- Steps ----

  datatype Step =
    | Tick(d: nat)
    | Arrive(id: nat, req: Req)
    | Dispatched(id: nat)
    | ValidateBearer(id: nat, verdict: Verdict)
    | GetRecord(id: nat, storeError: bool)
    | CheckRecord(id: nat)
    | VerifyRequest(id: nat)
    | Send(id: nat, again: nat)
    | ArriveExchange(id: nat, form: Exchange.Form)
    | CheckTheForm(id: nat)
    | ValidateExchange(id: nat, verdict: Verdict)
    | Mint(id: nat, draw: Draw)
    | PutRecord(id: nat, storeError: bool)
    | ArriveRevoke(id: nat, akid: Str)
    | RevokeGet(id: nat, storeError: bool)
    | RevokeDelete(id: nat, storeError: bool)
    | ReadCutoff(id: nat)
    | RunSweep(id: nat)

  /** The first move of a new thread. */
  function Begin(cfg: Config, now: int, step: Step): Option<Move> {
    match step
    case Arrive(_, req) => Some(Move(Fresh(req), Some(Arrived(req)), Nothing))
    case ArriveExchange(_, form) => Some(Move(Asking(form), Some(Asked(form)), Nothing))
    case ArriveRevoke(_, akid) => Some(Move(Revoking(akid), None, Nothing))
    case ReadCutoff(_) => Some(Move(Sweeping(now - cfg.retention), Some(CutoffRead(now - cfg.retention)), Nothing))
    case _ => None
  }

  /** The move that a step makes with a running thread, if it is that thread's turn. */
  ghost function Continue(env: Env, cfg: Config, now: int, store: Records, t: Thread, step: Step): Option<Move> {
    match step
    case Dispatched(_) => if t.Fresh? then Some(RouteMove(cfg, t.req)) else None
    case ValidateBearer(_, verdict) => if t.NeedsToken? then Some(BearerMove(t.req, t.token, verdict)) else None
    case GetRecord(_, err) => if t.NeedsRecord? then Some(GetMove(store, t.req, t.proof, err)) else None
    case CheckRecord(_) => if t.HasAnswer? then Some(CheckMove(now, t.req, t.proof, t.found)) else None
    case VerifyRequest(_) => if t.Checked? then Some(VerifyMove(env, cfg, now, t.req, t.proof, t.cred)) else None
    case Send(_, again) => if t.Cleared? then Some(SendMove(env, cfg, now, t, now + again)) else None
    case CheckTheForm(_) => if t.Asking? then Some(FormMove(cfg, t.form)) else None
    case ValidateExchange(_, verdict) =>
      if t.Exchanging? then Some(ExchangeMove(t.token, t.requested, verdict)) else None
    case Mint(_, draw) => if t.Identified? then Some(MintMove(cfg, now, t.identity, t.requested, draw)) else None
    case PutRecord(_, err) => if t.Minted? then Some(PutMove(t.cred, err)) else None
    case RevokeGet(_, err) => if t.Revoking? then Some(RevokeGetMove(store, t.akid, err)) else None
    case RevokeDelete(_, err) => if t.Revocable? then Some(RevokeDeleteMove(t.akid, err)) else None
    case RunSweep(_) => if t.Sweeping? then Some(Move(Idle, Some(Swept(t.cutoff)), Nothing)) else None
    case _ => None
  }

  ghost function MoveOf(env: Env, cfg: Config, s: State, step: Step): Option<Move>
    requires !step.Tick?
  {
    if step.id in s.threads then Continue(env, cfg, s.now, s.store, s.threads[step.id], step)
    else Begin(cfg, s.now, step)
  }

  /** One step. A step that is not enabled changes nothing, so every sequence of steps is a run. */
  ghost function Next(env: Env, cfg: Config, s: State, step: Step): State {
    if step.Tick? then s.(now := s.now + step.d)
    else
      match MoveOf(env, cfg, s, step)
      case None => s
      case Some(m) => Apply(s, step.id, m)
  }

  /** The state after any sequence of steps. */
  ghost function Run(env: Env, cfg: Config, s: State, steps: seq<Step>): State {
    if steps == [] then s
    else Next(env, cfg, Run(env, cfg, s, steps[..|steps| - 1]), steps[|steps| - 1])
  }
}
