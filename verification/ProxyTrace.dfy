/** What every trace of the proxy looks like: the clock does not run backwards, the acts of one
    thread come in order and each at most once, and every event is the act of one step of the run,
    logged with the clock and on the store of that moment. */
module ProxyTrace {
  import opened Seqs
  import opened Primitives
  import opened Strings
  import opened Http
  import opened Authorization
  import opened Presign
  import opened Forward
  import opened Store
  import opened Proxy
  import Exchange
  import Lifetime

  /** The store's contents after a trace. */
  function Replay(t: seq<Event>): Records {
    if t == [] then map[] else Effect(Replay(t[..|t| - 1]), t[|t| - 1].act)
  }

  /** The place of an act in a thread's life. */
  function Rank(a: Act): nat {
    match a
    case Arrived(_) => 0
    case Asked(_) => 0
    case CutoffRead(_) => 0
    case Accepted(_, _) => 1
    case Got(_, _) => 1
    case PassedThrough(_) => 1
    case Deleted(_) => 1
    case Swept(_) => 1
    case Admitted(_) => 2
    case Made(_) => 2
    case Proved(_) => 3
    case Stored(_) => 3
    case Sent(_, _, _, _, _, _) => 4
    case Rejected(_, _) => 4
    case Answered(_, _) => 4
  }

  /** The least rank of what a thread may still do. */
  function Stage(t: Thread): nat {
    match t
    case HasAnswer(_, _, _) => 2
    case Identified(_, _) => 2
    case Checked(_, _, _) => 3
    case Minted(_) => 3
    case Cleared(_, _, _, _) => 4
    case Done(_, _) => 5
    case Unauthenticated => 5
    case Exchanged(_) => 5
    case Idle => 5
    case _ => 1
  }

  ghost predicate Chronological(t: seq<Event>) {
    forall i, j :: 0 <= i < j < |t| ==> t[i].at <= t[j].at
  }

  /** So no thread does two things of one kind. */
  ghost predicate OncePerThread(t: seq<Event>) {
    forall i, j :: 0 <= i < j < |t| && t[i].id == t[j].id ==> Rank(t[i].act) < Rank(t[j].act)
  }

  ghost predicate Orderly(s: State) {
    && s.store == Replay(s.trace)
    && Chronological(s.trace)
    && OncePerThread(s.trace)
    && (forall i :: 0 <= i < |s.trace| ==> s.trace[i].at <= s.now)
    && (forall i :: 0 <= i < |s.trace| ==>
          s.trace[i].id in s.threads && Rank(s.trace[i].act) < Stage(s.threads[s.trace[i].id]))
  }

  /** A move does what is still to do, and goes on from there. */
  predicate Advances(t: Option<Thread>, m: Move) {
    && (m.act.Some? ==> Rank(m.act.value) < Stage(m.next))
    && (t.Some? ==> Stage(t.value) <= Stage(m.next))
    && (t.Some? && m.act.Some? ==> Stage(t.value) <= Rank(m.act.value))
  }

  lemma RouteAdvances(cfg: Config, req: Req)
    ensures Advances(Some(Fresh(req)), RouteMove(cfg, req))
  {
    hide Dispatch, Parse, ParsePresigned;
  }

  lemma BearerAdvances(req: Req, token: Str, verdict: Verdict)
    ensures Advances(Some(NeedsToken(req, token)), BearerMove(req, token, verdict))
  {
    hide Policy;
  }

  lemma GetAdvances(store: Records, req: Req, proof: Proof, storeError: bool)
    ensures Advances(Some(NeedsRecord(req, proof)), GetMove(store, req, proof, storeError))
  {
    hide AkidOf, LaneOf;
  }

  lemma CheckAdvances(now: int, req: Req, proof: Proof, found: Option<Credentials>)
    ensures Advances(Some(HasAnswer(req, proof, found)), CheckMove(now, req, proof, found))
  {
    hide SessionToken, Expired, LaneOf;
  }

  lemma VerifyAdvances(env: Env, cfg: Config, now: int, req: Req, proof: Proof, c: Credentials)
    ensures Advances(Some(Checked(req, proof, c)), VerifyMove(env, cfg, now, req, proof, c))
  {
    hide VerifyProof, LaneOf, ErrorLabel;
  }

  lemma SendAdvances(env: Env, cfg: Config, now: int, t: Thread, again: int)
    requires t.Cleared?
    ensures Advances(Some(t), SendMove(env, cfg, now, t, again))
  {
    hide ApplyIdentity, Stripped, AuthFor;
  }

  lemma FormAdvances(cfg: Config, form: Exchange.Form)
    ensures Advances(Some(Asking(form)), FormMove(cfg, form))
  {
    hide Exchange.CheckForm;
  }

  lemma ExchangeAdvances(token: Str, requested: int, verdict: Verdict)
    ensures Advances(Some(Exchanging(token, requested)), ExchangeMove(token, requested, verdict))
  {
    hide Policy, Exchange.MapTokenError;
  }

  lemma MintAdvances(cfg: Config, now: int, i: Identity, requested: int, draw: Draw)
    ensures Advances(Some(Identified(i, requested)), MintMove(cfg, now, i, requested, draw))
  {
    hide Lifetime.Ttl, MintedAkid;
  }

  lemma PutAdvances(cred: Credentials, storeError: bool)
    ensures Advances(Some(Minted(cred)), PutMove(cred, storeError))
  {
  }

  lemma RevokeAdvances(store: Records, akid: Str, storeError: bool)
    ensures Advances(Some(Revoking(akid)), RevokeGetMove(store, akid, storeError))
    ensures Advances(Some(Revocable(akid)), RevokeDeleteMove(akid, storeError))
  {
  }

  lemma SweepAdvances(cutoff: int)
    ensures Advances(Some(Sweeping(cutoff)), Move(Idle, Some(Proxy.Swept(cutoff)), Nothing))
  {
  }

  lemma ContinueAdvances(env: Env, cfg: Config, now: int, store: Records, t: Thread, step: Step)
    ensures var m := Continue(env, cfg, now, store, t, step); m.Some? ==> Advances(Some(t), m.value)
  {
    hide RouteMove, BearerMove, GetMove, CheckMove, VerifyMove, SendMove, FormMove, ExchangeMove, MintMove, PutMove,
      RevokeGetMove, RevokeDeleteMove, Advances;
    match t
    case Fresh(req) => RouteAdvances(cfg, req);
    case NeedsToken(req, token) => if step.ValidateBearer? { BearerAdvances(req, token, step.verdict); }
    case NeedsRecord(req, proof) => if step.GetRecord? { GetAdvances(store, req, proof, step.storeError); }
    case HasAnswer(req, proof, found) => CheckAdvances(now, req, proof, found);
    case Checked(req, proof, c) => VerifyAdvances(env, cfg, now, req, proof, c);
    case Cleared(_, _, _, _) => if step.Send? { SendAdvances(env, cfg, now, t, now + step.again); }
    case Asking(form) => FormAdvances(cfg, form);
    case Exchanging(token, n) => if step.ValidateExchange? { ExchangeAdvances(token, n, step.verdict); }
    case Identified(i, n) => if step.Mint? { MintAdvances(cfg, now, i, n, step.draw); }
    case Minted(c) => if step.PutRecord? { PutAdvances(c, step.storeError); }
    case Revoking(akid) => if step.RevokeGet? { RevokeAdvances(store, akid, step.storeError); }
    case Revocable(akid) => if step.RevokeDelete? { RevokeAdvances(store, akid, step.storeError); }
    case Sweeping(cutoff) => SweepAdvances(cutoff);
    case _ =>
  }

  function ThreadAt(s: State, id: nat): Option<Thread> {
    if id in s.threads then Some(s.threads[id]) else None
  }

  lemma MovesAdvance(env: Env, cfg: Config, s: State, step: Step)
    requires !step.Tick?
    ensures var m := MoveOf(env, cfg, s, step); m.Some? ==> Advances(ThreadAt(s, step.id), m.value)
  {
    hide Continue, Advances;
    if step.id in s.threads {
      ContinueAdvances(env, cfg, s.now, s.store, s.threads[step.id], step);
    } else {
      BeginAdvances(cfg, s.now, step);
    }
  }

  lemma BeginAdvances(cfg: Config, now: int, step: Step)
    ensures var m := Begin(cfg, now, step); m.Some? ==> Advances(None, m.value)
  {
  }

  lemma ReplaySnoc(t: seq<Event>, e: Event)
    ensures Replay(t + [e]) == Effect(Replay(t), e.act)
  {
    assert (t + [e])[..|t|] == t;
  }

  lemma ApplyIsOrderly(s: State, id: nat, m: Move)
    requires Orderly(s) && Advances(ThreadAt(s, id), m)
    ensures Orderly(Apply(s, id, m))
  {
    hide Replay, Rank, Stage, Effect, Count;
    if m.act.Some? {
      ReplaySnoc(s.trace, Event(s.now, id, m.act.value));
    }
  }

  lemma NextIsOrderly(env: Env, cfg: Config, s: State, step: Step)
    requires Orderly(s)
    ensures Orderly(Next(env, cfg, s, step))
  {
    hide Replay, Rank, Stage, Apply, MoveOf, Advances;
    if !step.Tick? {
      MovesAdvance(env, cfg, s, step);
      if MoveOf(env, cfg, s, step).Some? {
        ApplyIsOrderly(s, step.id, MoveOf(env, cfg, s, step).value);
      }
    }
  }

  /** Every run keeps order, from any orderly state. */
  lemma {:induction false} RunIsOrderly(env: Env, cfg: Config, s: State, steps: seq<Step>)
    requires Orderly(s)
    ensures Orderly(Run(env, cfg, s, steps))
  {
    hide Next, Orderly;
    if steps != [] {
      RunIsOrderly(env, cfg, s, steps[..|steps| - 1]);
      NextIsOrderly(env, cfg, Run(env, cfg, s, steps[..|steps| - 1]), steps[|steps| - 1]);
    }
  }

  lemma InitIsOrderly(now: int)
    ensures Orderly(Init(now))
  {
  }

  // ---- What an act goes back to ----

  /** The validator's verdict, with the username policy, is this refusal. */
  predicate Refuses(v: Verdict, e: Exchange.TokenError) {
    v == Fails(e) || (v.Claims? && !ValidUsername(v.identity.username) && e == Exchange.BadUsername)
  }

  /** The input from outside that an act goes back to: the request or form that arrived, the
      validator's verdict, the store's error, the random draw. */
  predicate Grounds(step: Step, act: Act) {
    match act
    case Arrived(req) => step.Arrive? && step.req == req
    case Asked(form) => step.ArriveExchange? && step.form == form
    case Accepted(_, i) =>
      (step.ValidateBearer? || step.ValidateExchange?) && step.verdict == Claims(i) && ValidUsername(i.username)
    case Got(_, _) => step.GetRecord? && !step.storeError
    case Rejected(_, TokenRefused(e)) => step.ValidateBearer? && Refuses(step.verdict, e)
    case Rejected(_, StoreDown) => step.GetRecord? && step.storeError
    case Answered(_, BadToken(e)) => step.ValidateExchange? && Refuses(step.verdict, e)
    case Answered(_, NoDraw) => step.Mint? && step.draw.failed
    case Answered(_, NotStored) => step.PutRecord? && step.storeError
    case Made(c) =>
      && step.Mint? && !step.draw.failed
      && c.akid == MintedAkid(step.draw.akid) && c.secret == step.draw.secret && c.token == step.draw.session
    case Stored(_) => step.PutRecord? && !step.storeError
    case Deleted(_) => step.RevokeDelete? && !step.storeError
    case _ => true
  }

  ghost predicate Grounded(step: Step, m: Move) {
    m.act.Some? ==> Grounds(step, m.act.value)
  }

  lemma RouteGrounded(step: Step, cfg: Config, req: Req)
    ensures Grounded(step, RouteMove(cfg, req))
  {
    hide Dispatch, Parse, ParsePresigned, ValidUsername;
  }

  lemma BearerGrounded(step: Step, req: Req, token: Str)
    requires step.ValidateBearer?
    ensures Grounded(step, BearerMove(req, token, step.verdict))
  {
    hide ValidUsername;
  }

  lemma ExchangeGrounded(step: Step, token: Str, requested: int)
    requires step.ValidateExchange?
    ensures Grounded(step, ExchangeMove(token, requested, step.verdict))
  {
    hide ValidUsername, Exchange.MapTokenError;
  }

  lemma GetGrounded(step: Step, store: Records, req: Req, proof: Proof)
    requires step.GetRecord?
    ensures Grounded(step, GetMove(store, req, proof, step.storeError))
  {
    hide AkidOf, LaneOf, ValidUsername;
  }

  lemma CheckGrounded(step: Step, now: int, req: Req, proof: Proof, found: Option<Credentials>)
    ensures Grounded(step, CheckMove(now, req, proof, found))
  {
    hide SessionToken, Expired, LaneOf, ValidUsername;
  }

  lemma VerifyGrounded(step: Step, env: Env, cfg: Config, now: int, req: Req, proof: Proof, c: Credentials)
    ensures Grounded(step, VerifyMove(env, cfg, now, req, proof, c))
  {
    hide VerifyProof, LaneOf, ValidUsername;
  }

  lemma SendGrounded(step: Step, env: Env, cfg: Config, now: int, t: Thread, again: int)
    requires t.Cleared?
    ensures Grounded(step, SendMove(env, cfg, now, t, again))
  {
    hide ApplyIdentity, Stripped, AuthFor, ValidUsername;
  }

  lemma FormGrounded(step: Step, cfg: Config, form: Exchange.Form)
    ensures Grounded(step, FormMove(cfg, form))
  {
    hide Exchange.CheckForm, ValidUsername;
  }

  lemma MintGrounded(step: Step, cfg: Config, now: int, i: Identity, requested: int)
    requires step.Mint?
    ensures Grounded(step, MintMove(cfg, now, i, requested, step.draw))
  {
    hide Lifetime.Ttl, MintedAkid, ValidUsername;
  }

  lemma PutGrounded(step: Step, c: Credentials)
    requires step.PutRecord?
    ensures Grounded(step, PutMove(c, step.storeError))
  {
    hide ValidUsername;
  }

  lemma RevokeGrounded(step: Step, akid: Str)
    requires step.RevokeDelete?
    ensures Grounded(step, RevokeDeleteMove(akid, step.storeError))
  {
    hide ValidUsername;
  }

  lemma ContinueGrounded(env: Env, cfg: Config, now: int, store: Records, t: Thread, step: Step)
    ensures var m := Continue(env, cfg, now, store, t, step); m.Some? ==> Grounded(step, m.value)
  {
    hide RouteMove, BearerMove, GetMove, CheckMove, VerifyMove, SendMove, FormMove, ExchangeMove, MintMove, PutMove,
      RevokeDeleteMove, ValidUsername;
    match t
    case Fresh(req) => RouteGrounded(step, cfg, req);
    case NeedsToken(req, token) => if step.ValidateBearer? { BearerGrounded(step, req, token); }
    case NeedsRecord(req, proof) => if step.GetRecord? { GetGrounded(step, store, req, proof); }
    case HasAnswer(req, proof, found) => CheckGrounded(step, now, req, proof, found);
    case Checked(req, proof, c) => VerifyGrounded(step, env, cfg, now, req, proof, c);
    case Cleared(_, req, _, _) => if step.Send? { SendGrounded(step, env, cfg, now, t, now + step.again); }
    case Asking(form) => FormGrounded(step, cfg, form);
    case Exchanging(token, n) => if step.ValidateExchange? { ExchangeGrounded(step, token, n); }
    case Identified(i, n) => if step.Mint? { MintGrounded(step, cfg, now, i, n); }
    case Minted(c) => if step.PutRecord? { PutGrounded(step, c); }
    case Revocable(akid) => if step.RevokeDelete? { RevokeGrounded(step, akid); }
    case _ =>
  }

  /** Every act goes back to its input. */
  lemma MovesAreGrounded(env: Env, cfg: Config, s: State, step: Step)
    requires !step.Tick?
    ensures var m := MoveOf(env, cfg, s, step); m.Some? ==> Grounded(step, m.value)
  {
    hide Continue, ValidUsername;
    if step.id in s.threads {
      ContinueGrounded(env, cfg, s.now, s.store, s.threads[step.id], step);
    }
  }

  // ---- The trace is the history of the run ----

  /** Event k of the trace is what step n of the run did: it carries that step's thread and the
      clock of the moment, it goes back to that step's input, and the store of the moment is what the
      events before it left. */
  ghost predicate LoggedBy(env: Env, cfg: Config, s: State, steps: seq<Step>, t: seq<Event>, k: int, n: int) {
    && 0 <= k < |t| && 0 <= n < |steps| && !steps[n].Tick?
    && var before := Run(env, cfg, s, steps[..n]);
       var m := MoveOf(env, cfg, before, steps[n]);
       && m.Some? && m.value.act == Some(t[k].act) && Grounds(steps[n], t[k].act)
       && t[k].at == before.now && t[k].id == steps[n].id
       && before.trace == t[..k] && before.store == Replay(t[..k])
  }

  lemma NextLogs(env: Env, cfg: Config, s: State, step: Step)
    ensures var t := Next(env, cfg, s, step).trace;
            || t == s.trace
            || (&& !step.Tick? && MoveOf(env, cfg, s, step).Some? && MoveOf(env, cfg, s, step).value.act.Some?
                && t == s.trace + [Event(s.now, step.id, MoveOf(env, cfg, s, step).value.act.value)])
  {
    hide MoveOf, Effect, Count;
  }

  /** The trace is the history of the run and nothing else. */
  lemma {:induction false} EventsAreSteps(env: Env, cfg: Config, now: int, steps: seq<Step>, k: nat) returns (n: nat)
    requires k < |Run(env, cfg, Init(now), steps).trace|
    ensures LoggedBy(env, cfg, Init(now), steps, Run(env, cfg, Init(now), steps).trace, k, n)
  {
    hide Next, Orderly, MoveOf, Replay, Grounds;
    var last := |steps| - 1;
    var before := Run(env, cfg, Init(now), steps[..last]);
    var t := Run(env, cfg, Init(now), steps).trace;
    NextLogs(env, cfg, before, steps[last]);
    if k < |before.trace| {
      n := EventsAreSteps(env, cfg, now, steps[..last], k);
      assert t[..k] == before.trace[..k] && steps[..last][..n] == steps[..n];
    } else {
      n := last;
      MovesAreGrounded(env, cfg, before, steps[last]);
      InitIsOrderly(now);
      RunIsOrderly(env, cfg, Init(now), steps[..last]);
      assert before.store == Replay(before.trace) by { StoreIsReplay(before); }
      assert t[..k] == before.trace;
    }
  }

  ghost predicate IsStep(env: Env, cfg: Config, s: State, steps: seq<Step>, t: seq<Event>, k: int) {
    exists n :: LoggedBy(env, cfg, s, steps, t, k, n)
  }

  /** Every event of a run is one of its steps. */
  ghost predicate Rooted(env: Env, cfg: Config, now: int, steps: seq<Step>) {
    var t := Run(env, cfg, Init(now), steps).trace;
    forall k :: 0 <= k < |t| ==> IsStep(env, cfg, Init(now), steps, t, k)
  }

  lemma RunIsRooted(env: Env, cfg: Config, now: int, steps: seq<Step>)
    ensures Rooted(env, cfg, now, steps)
  {
    hide Run, Init, LoggedBy;
    var t := Run(env, cfg, Init(now), steps).trace;
    forall k | 0 <= k < |t| ensures IsStep(env, cfg, Init(now), steps, t, k) {
      var n := EventsAreSteps(env, cfg, now, steps, k);
    }
  }

  lemma StoreIsReplay(s: State)
    requires Orderly(s)
    ensures s.store == Replay(s.trace)
  {
    hide Replay, Rank, Stage;
  }
}
