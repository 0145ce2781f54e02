/** Counter conservation over every interleaved run, in total and request by request. */
module ProxyCounters {
  import opened Seqs
  import opened Strings
  import opened Primitives
  import opened Http
  import opened Authorization
  import opened Presign
  import opened Store
  import opened Proxy
  import opened ProxyTrace
  import Exchange
  import Forward
  import Lifetime

  type Threads = map<nat, Thread>

  // ---- Which threads a counter is about ----

  /** The lane that serves a request, once it has been dispatched. */
  function ThreadLane(th: Thread): Option<Lane> {
    match th
    case NeedsToken(_, _) => Some(BearerLane)
    case NeedsRecord(_, proof) => Some(LaneOf(proof))
    case HasAnswer(_, proof, _) => Some(LaneOf(proof))
    case Checked(_, proof, _) => Some(LaneOf(proof))
    case Cleared(lane, _, _, _) => Some(lane)
    case Done(lane, _) => Some(lane)
    case _ => None
  }

  /** The result a request has been counted under, once it has. */
  function ThreadResult(th: Thread): Option<Label> {
    match th
    case Cleared(_, _, _, _) => Some(Success)
    case Done(_, r) => Some(r)
    case _ => None
  }

  predicate IsDecided(th: Thread, lane: Lane) { ThreadLane(th) == Some(lane) && ThreadResult(th).Some? }

  predicate IsDecidedAs(th: Thread, lane: Lane, r: Label) {
    ThreadLane(th) == Some(lane) && ThreadResult(th) == Some(r)
  }

  /** Verified, counted, and about to be forwarded. */
  predicate IsPending(th: Thread, lane: Lane) { th.Cleared? && th.lane == lane }

  function Serving(lane: Lane): Thread -> bool { th => ThreadLane(th) == Some(lane) }

  function Decided(lane: Lane): Thread -> bool { th => IsDecided(th, lane) }

  function DecidedAs(lane: Lane, r: Label): Thread -> bool { th => IsDecidedAs(th, lane, r) }

  function Pending(lane: Lane): Thread -> bool { th => IsPending(th, lane) }

  function Reported(): Thread -> bool { (th: Thread) => th.Exchanged? }

  function ReportedAs(code: Exchange.Code): Thread -> bool { th => th == Exchanged(code) }

  function Those(ts: Threads, p: Thread -> bool): set<nat> { set id | id in ts && p(ts[id]) }

  function SentCount(t: seq<Event>, lane: Lane): nat {
    if t == [] then 0 else SentCount(t[..|t| - 1], lane) + One(Sends(t[|t| - 1].act, lane))
  }

  function StoredCount(t: seq<Event>): nat {
    if t == [] then 0 else StoredCount(t[..|t| - 1]) + One(t[|t| - 1].act.Stored?)
  }

  predicate Sends(act: Act, lane: Lane) { act.Sent? && act.lane == lane }

  function One(b: bool): nat { if b then 1 else 0 }

  // ---- The invariant, for one lane, one label and one code ----

  ghost predicate CountInv(s: State, lane: Lane, r: Label, code: Exchange.Code) {
    var counter, exchanges := CounterOf(s.counters, lane), s.counters.exchanges;
    && |counter| == |Those(s.threads, Decided(lane))|
    && counter[r] == |Those(s.threads, DecidedAs(lane, r))|
    && counter[Success] == SentCount(s.trace, lane) + |Those(s.threads, Pending(lane))|
    && |exchanges| == |Those(s.threads, Reported())|
    && exchanges[code] == |Those(s.threads, ReportedAs(code))|
    && exchanges[Exchange.Granted] == StoredCount(s.trace)
  }

  predicate Uncounted(t: Option<Thread>) {
    t.Some? ==> ThreadResult(t.value).None? && !t.value.Exchanged?
  }

  /** What a move counts is what it changes. */
  predicate Fits(t: Option<Thread>, m: Move) {
    var sends := m.act.Some? && m.act.value.Sent?;
    var stores := m.act.Some? && m.act.value.Stored?;
    match m.tally
    case Nothing =>
      && !stores && !m.next.Exchanged?
      && if sends then
           && t.Some? && t.value.Cleared?
           && m.act.value.lane == t.value.lane && m.next == Done(t.value.lane, Success)
         else Uncounted(t) && ThreadResult(m.next).None?
    case Outcome(lane, r) =>
      && !sends && !stores && Uncounted(t)
      && ThreadLane(m.next) == Some(lane) && ThreadResult(m.next) == Some(r) && (m.next.Cleared? <==> r == Success)
    case Report(code) =>
      !sends && (stores <==> code == Exchange.Granted) && Uncounted(t) && m.next == Exchanged(code)
  }

  predicate Was(t: Option<Thread>, p: Thread -> bool) { t.Some? && p(t.value) }

  /** A fitting move changes each class of threads by what it counts and sends. */
  lemma LaneDelta(t: Option<Thread>, m: Move, lane: Lane, r: Label)
    requires Fits(t, m)
    ensures One(Decided(lane)(m.next)) == One(Was(t, Decided(lane))) + One(m.tally.Outcome? && m.tally.lane == lane)
    ensures One(DecidedAs(lane, r)(m.next)) == One(Was(t, DecidedAs(lane, r))) + One(m.tally == Outcome(lane, r))
  {
    hide LaneOf;
  }

  lemma PendingDelta(t: Option<Thread>, m: Move, lane: Lane)
    requires Fits(t, m)
    ensures One(Pending(lane)(m.next)) + One(m.act.Some? && Sends(m.act.value, lane))
         == One(Was(t, Pending(lane))) + One(m.tally == Outcome(lane, Success))
  {
    hide LaneOf;
  }

  lemma ReportDelta(t: Option<Thread>, m: Move, code: Exchange.Code)
    requires Fits(t, m)
    ensures One(Reported()(m.next)) == One(Was(t, Reported())) + One(m.tally.Report?)
    ensures One(ReportedAs(code)(m.next)) == One(Was(t, ReportedAs(code))) + One(m.tally == Report(code))
    ensures m.tally == Report(Exchange.Granted) <==> m.act.Some? && m.act.value.Stored?
  {
    hide LaneOf;
  }

  lemma OneOrNone(big: set<nat>, rest: set<nat>, id: nat, b: bool)
    requires id !in rest && forall i :: i in big <==> i in rest || (b && i == id)
    ensures |big| == |rest| + One(b)
  {
    assert big == rest + if b then {id} else {};
  }

  lemma ThoseUpdate(ts: Threads, p: Thread -> bool, id: nat, next: Thread)
    ensures |Those(ts[id := next], p)| + One(id in ts && p(ts[id])) == |Those(ts, p)| + One(p(next))
  {
    hide One;
    var rest := Those(ts, p) - {id};
    OneOrNone(Those(ts, p), rest, id, id in ts && p(ts[id]));
    OneOrNone(Those(ts[id := next], p), rest, id, p(next));
  }

  lemma CountSnoc(t: seq<Event>, e: Event, lane: Lane)
    ensures SentCount(t + [e], lane) == SentCount(t, lane) + One(Sends(e.act, lane))
    ensures StoredCount(t + [e]) == StoredCount(t) + One(e.act.Stored?)
  {
    assert (t + [e])[..|t|] == t;
  }

  lemma LaneCounted(c: Counters, tally: Tally, lane: Lane, r: Label)
    ensures var before, after := CounterOf(c, lane), CounterOf(Count(c, tally), lane);
            && |after| == |before| + One(tally.Outcome? && tally.lane == lane)
            && after[r] == before[r] + One(tally == Outcome(lane, r))
  {
  }

  lemma ExchangeCounted(c: Counters, tally: Tally, code: Exchange.Code)
    ensures var before, after := c.exchanges, Count(c, tally).exchanges;
            |after| == |before| + One(tally.Report?) && after[code] == before[code] + One(tally == Report(code))
  {
  }

  lemma ApplyCounts(s: State, id: nat, m: Move, lane: Lane, r: Label, code: Exchange.Code)
    requires CountInv(s, lane, r, code) && Fits(ThreadAt(s, id), m)
    ensures CountInv(Apply(s, id, m), lane, r, code)
  {
    hide Count, CounterOf, Those, SentCount, StoredCount, Sends, Effect, Fits, Decided, DecidedAs, Pending, Reported,
      ReportedAs;
    var t := ThreadAt(s, id);
    LaneDelta(t, m, lane, r);
    PendingDelta(t, m, lane);
    ReportDelta(t, m, code);
    LaneCounted(s.counters, m.tally, lane, r);
    LaneCounted(s.counters, m.tally, lane, Success);
    ExchangeCounted(s.counters, m.tally, code);
    ExchangeCounted(s.counters, m.tally, Exchange.Granted);
    ThoseUpdate(s.threads, Decided(lane), id, m.next);
    ThoseUpdate(s.threads, DecidedAs(lane, r), id, m.next);
    ThoseUpdate(s.threads, Pending(lane), id, m.next);
    ThoseUpdate(s.threads, Reported(), id, m.next);
    ThoseUpdate(s.threads, ReportedAs(code), id, m.next);
    if m.act.Some? {
      CountSnoc(s.trace, Event(s.now, id, m.act.value), lane);
    }
  }

  // ---- Results, request by request ----

  /** The end that an act puts to its thread. */
  function End(act: Act): Option<Thread> {
    match act
    case Sent(lane, _, _, _, _, _) => Some(Done(lane, Success))
    case Rejected(lane, r) => Some(Done(lane, r))
    case Stored(_) => Some(Exchanged(Exchange.Granted))
    case Answered(code, _) => Some(Exchanged(code))
    case _ => None
  }

  predicate Ended(th: Thread) { th.Done? || th.Exchanged? }

  predicate HonestEnd(act: Act) {
    (act.Answered? ==> act.code != Exchange.Granted) && (act.Rejected? ==> act.result != Success)
  }

  /** A thread ends once, with the act that says how. */
  predicate Concludes(t: Option<Thread>, m: Move) {
    && (t.Some? ==> !Ended(t.value))
    && (m.act.Some? ==> HonestEnd(m.act.value) && (End(m.act.value).Some? ==> End(m.act.value) == Some(m.next)))
    && (Ended(m.next) ==> m.act.Some? && End(m.act.value) == Some(m.next))
  }

  ghost predicate EndsWith(t: seq<Event>, id: nat, th: Thread) {
    exists k :: 0 <= k < |t| && t[k].id == id && End(t[k].act) == Some(th)
  }

  ghost predicate EndInv(s: State) {
    && (forall k :: 0 <= k < |s.trace| ==> HonestEnd(s.trace[k].act))
    && (forall k :: 0 <= k < |s.trace| && End(s.trace[k].act).Some? ==>
          s.trace[k].id in s.threads && s.threads[s.trace[k].id] == End(s.trace[k].act).value)
    && (forall id :: id in s.threads && Ended(s.threads[id]) ==> EndsWith(s.trace, id, s.threads[id]))
  }

  lemma EndsStay(t: seq<Event>, t': seq<Event>, id: nat, th: Thread)
    requires t <= t' && EndsWith(t, id, th)
    ensures EndsWith(t', id, th)
  {
    var k :| 0 <= k < |t| && t[k].id == id && End(t[k].act) == Some(th);
    assert t'[k] == t[k];
  }

  lemma ApplyEnds(s: State, id: nat, m: Move)
    requires EndInv(s) && Concludes(ThreadAt(s, id), m)
    ensures EndInv(Apply(s, id, m))
  {
    hide HonestEnd, Effect, Count;
    var s' := Apply(s, id, m);
    forall i | i in s'.threads && Ended(s'.threads[i]) ensures EndsWith(s'.trace, i, s'.threads[i]) {
      if i == id {
        assert s'.trace[|s.trace|] == Event(s.now, id, m.act.value);
      } else {
        EndsStay(s.trace, s'.trace, i, s'.threads[i]);
      }
    }
    forall k | 0 <= k < |s'.trace| && End(s'.trace[k].act).Some?
      ensures s'.trace[k].id in s'.threads && s'.threads[s'.trace[k].id] == End(s'.trace[k].act).value
    {
      if k < |s.trace| {
        assert s'.trace[k] == s.trace[k];
        EndedId(s, k);
      }
    }
  }

  lemma EndedId(s: State, k: nat)
    requires EndInv(s) && k < |s.trace| && End(s.trace[k].act).Some?
    ensures s.trace[k].id in s.threads && s.threads[s.trace[k].id] == End(s.trace[k].act).value
    ensures Ended(s.threads[s.trace[k].id])
  {
    hide EndsWith, HonestEnd;
  }

  // ---- Every move ----

  /** Both kinds of bookkeeping, for one move. */
  predicate Accounts(t: Option<Thread>, m: Move) {
    Fits(t, m) && Concludes(t, m)
  }

  lemma RejectAccounts(t: Thread, result: Label, lane: Lane)
    requires !Ended(t) && !t.Cleared? && result != Success
    ensures Accounts(Some(t), Reject(lane, result))
  {
  }

  lemma FailAccounts(t: Thread, c: Exchange.Code, cause: Cause)
    requires !Ended(t) && !t.Cleared? && c != Exchange.Granted
    ensures Accounts(Some(t), Fail(c, cause))
  {
  }

  /** A move that neither ends a thread nor counts anything. */
  lemma PlainAccounts(t: Option<Thread>, m: Move)
    requires t.Some? ==> !Ended(t.value) && !t.value.Cleared?
    requires !Ended(m.next) && !m.next.Cleared? && m.tally == Nothing
    requires m.act.Some? ==> End(m.act.value).None?
    ensures Accounts(t, m)
  {
  }

  lemma ClearAccounts(t: Thread, next: Thread, act: Act)
    requires !Ended(t) && !t.Cleared? && next.Cleared? && End(act).None?
    ensures Accounts(Some(t), Move(next, Some(act), Outcome(next.lane, Success)))
  {
  }

  lemma SendAccounts(env: Env, cfg: Config, now: int, t: Thread, again: int)
    requires t.Cleared?
    ensures Accounts(Some(t), SendMove(env, cfg, now, t, again))
  {
    hide Forward.ApplyIdentity, Stripped, AuthFor;
  }

  lemma PutAccounts(c: Credentials)
    ensures Accounts(Some(Minted(c)), PutMove(c, false))
  {
  }

  lemma ErrorsAreNotSuccess(proof: Proof, e: Error)
    ensures ErrorLabel(proof, e) != Success
  {
  }

  lemma RefusalsAreNotGranted(form: Exchange.Form, allowlist: seq<Str>)
    ensures Exchange.CheckForm(form, allowlist).Refuse? ==> Exchange.CheckForm(form, allowlist).code != Exchange.Granted
  {
    hide Exchange.SessionNameOk, Atoi;
  }

  lemma RouteAccounts(cfg: Config, req: Req)
    ensures Accounts(Some(Fresh(req)), RouteMove(cfg, req))
  {
    hide Accounts, Dispatch, Parse, ParsePresigned, Reject;
    var m := RouteMove(cfg, req);
    match Dispatch(req)
    case ToBearer(_) =>
      if cfg.acceptBearer { PlainAccounts(Some(Fresh(req)), m); }
      else { RejectAccounts(Fresh(req), Disabled, BearerLane); }
    case ToHeader(header) =>
      if Parse(header).Ok? { PlainAccounts(Some(Fresh(req)), m); }
      else { RejectAccounts(Fresh(req), BadSyntax, HeaderLane); }
    case ToQuery =>
      if ParsePresigned(req.rawQuery).Ok? { PlainAccounts(Some(Fresh(req)), m); }
      else { RejectAccounts(Fresh(req), BadSyntax, QueryLane); }
    case ToNobody => PlainAccounts(Some(Fresh(req)), m);
  }

  lemma BearerAccounts(req: Req, token: Str, verdict: Verdict)
    ensures Accounts(Some(NeedsToken(req, token)), BearerMove(req, token, verdict))
  {
    hide Accounts, Policy, Reject;
    var t := NeedsToken(req, token);
    match Policy(verdict)
    case Fails(e) => RejectAccounts(t, TokenRefused(e), BearerLane);
    case Claims(i) =>
      ClearAccounts(t, Cleared(BearerLane, req, i.username, ByToken(token)), Accepted(token, i));
  }

  lemma GetAccounts(store: Records, req: Req, proof: Proof, err: bool)
    ensures Accounts(Some(NeedsRecord(req, proof)), GetMove(store, req, proof, err))
  {
    hide Accounts, LaneOf, AkidOf, Reject;
    var t := NeedsRecord(req, proof);
    if err {
      RejectAccounts(t, StoreDown, LaneOf(proof));
    } else {
      PlainAccounts(Some(t), GetMove(store, req, proof, err));
    }
  }

  lemma CheckAccounts(now: int, req: Req, proof: Proof, found: Option<Credentials>)
    ensures Accounts(Some(HasAnswer(req, proof, found)), CheckMove(now, req, proof, found))
  {
    hide Accounts, LaneOf, SessionToken, Expired, Reject;
    var t := HasAnswer(req, proof, found);
    if found.None? {
      RejectAccounts(t, UnknownKey, LaneOf(proof));
    } else if Expired(found.value, now) {
      RejectAccounts(t, ExpiredKey, LaneOf(proof));
    } else if SessionToken(req, proof) != found.value.token {
      RejectAccounts(t, BadSession, LaneOf(proof));
    } else {
      PlainAccounts(Some(t), CheckMove(now, req, proof, found));
    }
  }

  lemma VerifyAccounts(env: Env, cfg: Config, now: int, req: Req, proof: Proof, c: Credentials)
    ensures Accounts(Some(Checked(req, proof, c)), VerifyMove(env, cfg, now, req, proof, c))
  {
    hide Accounts, VerifyProof, ErrorLabel, LaneOf, Reject;
    var t := Checked(req, proof, c);
    match VerifyProof(env, cfg, req, proof, c, now)
    case Err(e) =>
      ErrorsAreNotSuccess(proof, e);
      RejectAccounts(t, ErrorLabel(proof, e), LaneOf(proof));
    case Ok(_) =>
      ClearAccounts(t, Cleared(LaneOf(proof), req, c.username, ByRecord(proof, c)), Proved(c));
  }

  lemma FormAccounts(cfg: Config, form: Exchange.Form)
    ensures Accounts(Some(Asking(form)), FormMove(cfg, form))
  {
    hide Accounts, Exchange.CheckForm, Fail;
    RefusalsAreNotGranted(form, cfg.allowlist);
    match Exchange.CheckForm(form, cfg.allowlist)
    case Refuse(c) => FailAccounts(Asking(form), c, BadForm);
    case Proceed(_, _) => PlainAccounts(Some(Asking(form)), FormMove(cfg, form));
  }

  lemma ExchangeAccounts(token: Str, requested: int, verdict: Verdict)
    ensures Accounts(Some(Exchanging(token, requested)), ExchangeMove(token, requested, verdict))
  {
    hide Accounts, Policy, Fail;
    var t := Exchanging(token, requested);
    match Policy(verdict)
    case Fails(e) => FailAccounts(t, Exchange.MapTokenError(e), BadToken(e));
    case Claims(_) => PlainAccounts(Some(t), ExchangeMove(token, requested, verdict));
  }

  lemma MintAccounts(cfg: Config, now: int, i: Identity, requested: int, draw: Draw)
    ensures Accounts(Some(Identified(i, requested)), MintMove(cfg, now, i, requested, draw))
  {
    hide Accounts, Lifetime.Ttl, MintedAkid, Fail;
    var t := Identified(i, requested);
    if Lifetime.Ttl(i.expiry, now, cfg.maxDuration, requested) <= 0 {
      FailAccounts(t, Exchange.ExpiredIdentity, NoLife);
    } else if draw.failed {
      FailAccounts(t, Exchange.ServiceFailure, NoDraw);
    } else {
      PlainAccounts(Some(t), MintMove(cfg, now, i, requested, draw));
    }
  }

  lemma ContinueAccounts(env: Env, cfg: Config, now: int, store: Records, t: Thread, step: Step)
    ensures var m := Continue(env, cfg, now, store, t, step); m.Some? ==> Accounts(Some(t), m.value)
  {
    hide RouteMove, BearerMove, GetMove, CheckMove, VerifyMove, SendMove, FormMove, ExchangeMove, MintMove, PutMove,
      Accounts;
    match t
    case Fresh(req) => RouteAccounts(cfg, req);
    case NeedsToken(req, token) => if step.ValidateBearer? { BearerAccounts(req, token, step.verdict); }
    case NeedsRecord(req, proof) => if step.GetRecord? { GetAccounts(store, req, proof, step.storeError); }
    case HasAnswer(req, proof, found) => CheckAccounts(now, req, proof, found);
    case Checked(req, proof, c) => VerifyAccounts(env, cfg, now, req, proof, c);
    case Cleared(_, _, _, _) => if step.Send? { SendAccounts(env, cfg, now, t, now + step.again); }
    case Asking(form) => FormAccounts(cfg, form);
    case Exchanging(token, n) => if step.ValidateExchange? { ExchangeAccounts(token, n, step.verdict); }
    case Identified(i, n) => if step.Mint? { MintAccounts(cfg, now, i, n, step.draw); }
    case Minted(c) => if step.PutRecord? { StoreAccounts(c, step.storeError); }
    case Revoking(akid) =>
      if step.RevokeGet? { PlainAccounts(Some(t), RevokeGetMove(store, akid, step.storeError)); }
    case Revocable(akid) =>
      if step.RevokeDelete? { PlainAccounts(Some(t), RevokeDeleteMove(akid, step.storeError)); }
    case Sweeping(cutoff) => PlainAccounts(Some(t), Move(Idle, Some(Proxy.Swept(cutoff)), Nothing));
    case _ =>
  }

  lemma StoreAccounts(c: Credentials, err: bool)
    ensures Accounts(Some(Minted(c)), PutMove(c, err))
  {
    hide Accounts, Fail;
    if err {
      FailAccounts(Minted(c), Exchange.ServiceFailure, NotStored);
    } else {
      PutAccounts(c);
    }
  }

  lemma MoveAccounts(env: Env, cfg: Config, s: State, step: Step)
    requires !step.Tick?
    ensures var m := MoveOf(env, cfg, s, step); m.Some? ==> Accounts(ThreadAt(s, step.id), m.value)
  {
    hide Continue, Accounts;
    if step.id in s.threads {
      ContinueAccounts(env, cfg, s.now, s.store, s.threads[step.id], step);
    } else if Begin(cfg, s.now, step).Some? {
      PlainAccounts(None, Begin(cfg, s.now, step).value);
    }
  }

  // ---- Every run ----

  ghost predicate Books(s: State, lane: Lane, r: Label, code: Exchange.Code) {
    CountInv(s, lane, r, code) && EndInv(s) && Orderly(s)
  }

  lemma NextCounts(env: Env, cfg: Config, s: State, step: Step, lane: Lane, r: Label, code: Exchange.Code)
    requires Books(s, lane, r, code)
    ensures Books(Next(env, cfg, s, step), lane, r, code)
  {
    hide MoveOf, Apply, CounterOf, Those, SentCount, StoredCount, Orderly, EndsWith, End, HonestEnd, Fits, Concludes;
    NextIsOrderly(env, cfg, s, step);
    if !step.Tick? && MoveOf(env, cfg, s, step).Some? {
      MoveAccounts(env, cfg, s, step);
      ApplyCounts(s, step.id, MoveOf(env, cfg, s, step).value, lane, r, code);
      ApplyEnds(s, step.id, MoveOf(env, cfg, s, step).value);
    }
  }

  lemma {:induction false} RunCounts(env: Env, cfg: Config, s: State, steps: seq<Step>, lane: Lane, r: Label,
                                     code: Exchange.Code)
    requires Books(s, lane, r, code)
    ensures Books(Run(env, cfg, s, steps), lane, r, code)
  {
    hide Next, Books;
    if steps != [] {
      RunCounts(env, cfg, s, steps[..|steps| - 1], lane, r, code);
      NextCounts(env, cfg, Run(env, cfg, s, steps[..|steps| - 1]), steps[|steps| - 1], lane, r, code);
    }
  }

  lemma InitBooks(now: int, lane: Lane, r: Label, code: Exchange.Code)
    ensures Books(Init(now), lane, r, code)
  {
    hide Orderly, Decided, DecidedAs, Pending, Reported, ReportedAs;
    InitIsOrderly(now);
    NoThreads(Decided(lane));
    NoThreads(DecidedAs(lane, r));
    NoThreads(Pending(lane));
    NoThreads(Reported());
    NoThreads(ReportedAs(code));
  }

  lemma NoThreads(p: Thread -> bool)
    ensures Those(map[], p) == {}
  {
  }

  lemma RunBooks(env: Env, cfg: Config, now: int, steps: seq<Step>, lane: Lane, r: Label, code: Exchange.Code)
    ensures Books(Run(env, cfg, Init(now), steps), lane, r, code)
  {
    hide Run, Books, Init;
    InitBooks(now, lane, r, code);
    RunCounts(env, cfg, Init(now), steps, lane, r, code);
  }

  // ---- The theorems ----

  /** Every request of the lane has been answered or forwarded. */
  ghost predicate Quiescent(ts: Threads, lane: Lane) {
    forall id :: id in ts && ThreadLane(ts[id]) == Some(lane) ==> ts[id].Done?
  }

  /** A lane's result counters sum to the requests it has decided, each label counts the requests
      decided that way, its success counter is the requests it has forwarded plus those on their
      way; once the lane is quiet the sum is over all its requests and success equals forwarded. */
  ghost predicate LaneConserved(s: State, lane: Lane) {
    var counter := CounterOf(s.counters, lane);
    && |counter| == |Those(s.threads, Decided(lane))|
    && (forall r :: counter[r] == |Those(s.threads, DecidedAs(lane, r))|)
    && counter[Success] == SentCount(s.trace, lane) + |Those(s.threads, Pending(lane))|
    && (Quiescent(s.threads, lane) ==>
          |counter| == |Those(s.threads, Serving(lane))| && counter[Success] == SentCount(s.trace, lane))
  }

  /** The exchange counters sum to the exchanges that have reported, each code counts those that
      reported it, and success was reported as often as a credential was stored. */
  ghost predicate ExchangesConserved(s: State) {
    && |s.counters.exchanges| == |Those(s.threads, Reported())|
    && (forall code :: s.counters.exchanges[code] == |Those(s.threads, ReportedAs(code))|)
    && s.counters.exchanges[Exchange.Granted] == StoredCount(s.trace)
  }

  lemma QuietLane(ts: Threads, lane: Lane)
    requires Quiescent(ts, lane)
    ensures Those(ts, Decided(lane)) == Those(ts, Serving(lane)) && Those(ts, Pending(lane)) == {}
  {
    hide LaneOf;
  }

  /** Conservation, in every state of every interleaved run. */
  lemma CountersConserved(env: Env, cfg: Config, now: int, steps: seq<Step>, lane: Lane)
    ensures LaneConserved(Run(env, cfg, Init(now), steps), lane)
    ensures ExchangesConserved(Run(env, cfg, Init(now), steps))
  {
    hide Run, Init, Those, SentCount, StoredCount, CounterOf, EndInv, Orderly, Quiescent;
    var s := Run(env, cfg, Init(now), steps);
    forall r, code
      ensures CounterOf(s.counters, lane)[r] == |Those(s.threads, DecidedAs(lane, r))|
      ensures s.counters.exchanges[code] == |Those(s.threads, ReportedAs(code))|
    {
      RunBooks(env, cfg, now, steps, lane, r, code);
    }
    RunBooks(env, cfg, now, steps, lane, Success, Exchange.Granted);
    if Quiescent(s.threads, lane) {
      QuietLane(s.threads, lane);
    }
  }

  predicate DidStore(e: Event, id: nat) { e.id == id && e.act.Stored? }

  predicate DidAnswer(e: Event, id: nat, code: Exchange.Code) {
    e.id == id && e.act.Answered? && e.act.code == code
  }

  predicate DidSend(e: Event, id: nat, lane: Lane) { e.id == id && Sends(e.act, lane) }

  /** The result of one thread: its exchange reported success exactly if it stored a credential, and
      a failure exactly if it answered so; its request is done with success exactly if it was
      forwarded, and with a refusal exactly if it was refused so; always by one single act. */
  ghost predicate Settled(s: State, id: nat)
    requires id in s.threads
  {
    var t, th := s.trace, s.threads[id];
    && (th == Exchanged(Exchange.Granted) <==> exists k :: 0 <= k < |t| && DidStore(t[k], id))
    && (forall code :: code != Exchange.Granted ==>
          (th == Exchanged(code) <==> exists k :: 0 <= k < |t| && DidAnswer(t[k], id, code)))
    && (forall lane :: th == Done(lane, Success) <==> exists k :: 0 <= k < |t| && DidSend(t[k], id, lane))
    && (forall lane, r :: r != Success ==>
          (th == Done(lane, r) <==> exists k :: 0 <= k < |t| && t[k].id == id && t[k].act == Rejected(lane, r)))
    && (forall k, n :: 0 <= k < n < |t| && t[k].id == t[n].id == id && End(t[n].act).Some? ==> End(t[k].act).None?)
  }

  lemma EndIff(s: State, id: nat, th: Thread)
    requires EndInv(s) && id in s.threads && Ended(th)
    ensures s.threads[id] == th <==> EndsWith(s.trace, id, th)
  {
    hide HonestEnd, End;
  }

  lemma StoredIff(s: State, id: nat)
    requires EndInv(s) && id in s.threads
    ensures s.threads[id] == Exchanged(Exchange.Granted) <==> exists k :: 0 <= k < |s.trace| && DidStore(s.trace[k], id)
  {
    EndIff(s, id, Exchanged(Exchange.Granted));
  }

  lemma AnsweredIff(s: State, id: nat, code: Exchange.Code)
    requires EndInv(s) && id in s.threads && code != Exchange.Granted
    ensures s.threads[id] == Exchanged(code) <==>
            exists k :: 0 <= k < |s.trace| && DidAnswer(s.trace[k], id, code)
  {
    EndIff(s, id, Exchanged(code));
  }

  lemma SentIff(s: State, id: nat, lane: Lane)
    requires EndInv(s) && id in s.threads
    ensures s.threads[id] == Done(lane, Success) <==> exists k :: 0 <= k < |s.trace| && DidSend(s.trace[k], id, lane)
  {
    EndIff(s, id, Done(lane, Success));
  }

  lemma RejectedIff(s: State, id: nat, lane: Lane, r: Label)
    requires EndInv(s) && id in s.threads && r != Success
    ensures s.threads[id] == Done(lane, r) <==>
            exists k :: 0 <= k < |s.trace| && s.trace[k].id == id && s.trace[k].act == Rejected(lane, r)
  {
    EndIff(s, id, Done(lane, r));
  }

  lemma OneEnd(s: State, id: nat, k: int, n: int)
    requires EndInv(s) && Orderly(s) && 0 <= k < n < |s.trace| && s.trace[k].id == s.trace[n].id == id
    requires End(s.trace[n].act).Some?
    ensures End(s.trace[k].act).None?
  {
    hide EndsWith, Replay, Stage;
    if End(s.trace[k].act).Some? {
      assert Rank(s.trace[k].act) < Rank(s.trace[n].act);
      assert End(s.trace[k].act) == End(s.trace[n].act);
    }
  }

  /** Per request and per exchange, in every state of every interleaved run. */
  lemma EveryThreadSettled(env: Env, cfg: Config, now: int, steps: seq<Step>, id: nat)
    ensures var s := Run(env, cfg, Init(now), steps); id in s.threads ==> Settled(s, id)
  {
    hide Run, Init, CountInv, EndInv, Orderly, DidStore, DidAnswer, DidSend;
    var s := Run(env, cfg, Init(now), steps);
    RunBooks(env, cfg, now, steps, BearerLane, Success, Exchange.Granted);
    if id in s.threads {
      StoredIff(s, id);
      forall code | code != Exchange.Granted { AnsweredIff(s, id, code); }
      forall lane { SentIff(s, id, lane); }
      forall lane, r | r != Success { RejectedIff(s, id, lane, r); }
      forall k, n | 0 <= k < n < |s.trace| && s.trace[k].id == s.trace[n].id == id && End(s.trace[n].act).Some?
        ensures End(s.trace[k].act).None?
      {
        OneEnd(s, id, k, n);
      }
    }
  }
}
