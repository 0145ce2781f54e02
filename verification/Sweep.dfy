/** The swept store against one that is never swept, over interleaved runs. */
module Sweep {
  import opened Seqs
  import opened Strings
  import opened Store

  /** One atomic step of a run; requests fetch and decide in separate steps, and a sweep reads its
      cutoff before it takes the lock. */
  datatype Op =
    | Tick(d: nat)
    | PutOp(c: Credentials)
    | DeleteOp(akid: Str)
    | ReadCutoff
    | SweepOp(cutoff: int)
    | Fetch(id: nat, akid: Str)
    | DecideOp(id: nat, proven: Credentials -> bool)

  datatype Run = Run(now: int, creds: Records, cutoffs: set<int>,
                     fetched: map<nat, Option<Credentials>>, decisions: seq<Decision>)

  function Start(now: int): Run { Run(now, map[], {}, map[], []) }

  function Step(s: Run, op: Op, retention: nat, sweeping: bool): Run {
    match op
    case Tick(d) => s.(now := s.now + d)
    case PutOp(c) => s.(creds := s.creds[c.akid := c])
    case DeleteOp(akid) => s.(creds := s.creds - {akid})
    case ReadCutoff => s.(cutoffs := s.cutoffs + {s.now - retention})
    case SweepOp(cutoff) => if sweeping && cutoff in s.cutoffs then s.(creds := Swept(s.creds, cutoff)) else s
    case Fetch(id, akid) => s.(fetched := s.fetched[id := Lookup(s.creds, akid)])
    case DecideOp(id, proven) =>
      if id in s.fetched
      then var found := s.fetched[id];
           s.(decisions := s.decisions + [Decide(found, s.now, found.Some? && proven(found.value))])
      else s
  }

  function RunAll(s: Run, ops: seq<Op>, retention: nat, sweeping: bool): Run {
    if ops == [] then s
    else Step(RunAll(s, ops[..|ops| - 1], retention, sweeping), ops[|ops| - 1], retention, sweeping)
  }

  /** Long gone: expired for more than the retention. */
  predicate LongGone(c: Credentials, now: int, retention: nat) { c.expiresAt < now - retention }

  /** What a sweep may change in an answer. */
  predicate Agrees(d: Decision, full: Decision, retention: nat) {
    d == full || (d.UnknownAkid? && full.ExpiredToken? && LongGone(full.c, full.at, retention))
  }

  predicate FetchAgrees(f: Option<Credentials>, full: Option<Credentials>, now: int, retention: nat) {
    f == full || (f.None? && full.Some? && LongGone(full.value, now, retention))
  }

  /** The swept run next to the run that is never swept. */
  ghost predicate Related(s: Run, full: Run, retention: nat) {
    && s.now == full.now && s.cutoffs == full.cutoffs
    && (forall t :: t in s.cutoffs ==> t <= s.now - retention)
    && (forall k :: k in s.creds ==> k in full.creds && s.creds[k] == full.creds[k])
    && (forall k :: k in full.creds && k !in s.creds ==> LongGone(full.creds[k], s.now, retention))
    && s.fetched.Keys == full.fetched.Keys
    && (forall id :: id in s.fetched ==> FetchAgrees(s.fetched[id], full.fetched[id], s.now, retention))
    && |s.decisions| == |full.decisions|
    && (forall i :: 0 <= i < |s.decisions| ==> Agrees(s.decisions[i], full.decisions[i], retention))
  }

  lemma StepRelated(s: Run, full: Run, op: Op, retention: nat)
    requires Related(s, full, retention)
    ensures Related(Step(s, op, retention, true), Step(full, op, retention, false), retention)
  {
  }

  lemma {:induction false} RunsRelated(now: int, ops: seq<Op>, retention: nat)
    ensures Related(RunAll(Start(now), ops, retention, true), RunAll(Start(now), ops, retention, false), retention)
  {
    if ops != [] {
      RunsRelated(now, ops[..|ops| - 1], retention);
      StepRelated(RunAll(Start(now), ops[..|ops| - 1], retention, true),
                  RunAll(Start(now), ops[..|ops| - 1], retention, false), ops[|ops| - 1], retention);
    }
  }

  /** In every interleaving the swept store and the never-swept map accept and refuse the same
      requests; they differ at most in "expired" versus "unknown", and only for records that have
      been expired for longer than the retention. */
  lemma SweepIsInvisible(now: int, ops: seq<Op>, retention: nat)
    ensures var swept, full := RunAll(Start(now), ops, retention, true).decisions,
                               RunAll(Start(now), ops, retention, false).decisions;
            && |swept| == |full|
            && (forall i :: 0 <= i < |swept| ==>
                  Agrees(swept[i], full[i], retention) && (swept[i].Accept? <==> full[i].Accept?))
  {
    RunsRelated(now, ops, retention);
  }

  // ---- What the two stores hold ----

  /** The record that was put last under a key and not deleted since. */
  function LastPut(ops: seq<Op>, akid: Str): Option<Credentials> {
    if ops == [] then None
    else
      var last := ops[|ops| - 1];
      if last.PutOp? && last.c.akid == akid then Some(last.c)
      else if last == DeleteOp(akid) then None
      else LastPut(ops[..|ops| - 1], akid)
  }

  /** The store that is never swept holds what was put last; time is the sum of the ticks. */
  lemma {:induction false} PlainStoreIsLastPut(now: int, ops: seq<Op>, retention: nat, akid: Str)
    ensures Lookup(RunAll(Start(now), ops, retention, false).creds, akid) == LastPut(ops, akid)
  {
    if ops != [] {
      PlainStoreIsLastPut(now, ops[..|ops| - 1], retention, akid);
    }
  }

  lemma RunSnoc(s: Run, ops: seq<Op>, op: Op, retention: nat, sweeping: bool)
    ensures RunAll(s, ops + [op], retention, sweeping) ==
            Step(RunAll(s, ops, retention, sweeping), op, retention, sweeping)
  {
    assert (ops + [op])[..|ops|] == ops;
  }

  /** A request that fetches a key and decides a while later is decided by what was put last. */
  lemma PlainDecision(now: int, ops: seq<Op>, retention: nat, id: nat, akid: Str, d: nat, proven: Credentials -> bool)
    ensures var s := RunAll(Start(now), ops, retention, false);
            var all := ops + [Fetch(id, akid)] + [Tick(d)] + [DecideOp(id, proven)];
            var s' := RunAll(Start(now), all, retention, false);
            var found := LastPut(ops, akid);
            && s'.now == s.now + d
            && s'.decisions == s.decisions + [Decide(found, s.now + d, found.Some? && proven(found.value))]
  {
    PlainStoreIsLastPut(now, ops, retention, akid);
    RunSnoc(Start(now), ops, Fetch(id, akid), retention, false);
    RunSnoc(Start(now), ops + [Fetch(id, akid)], Tick(d), retention, false);
    RunSnoc(Start(now), ops + [Fetch(id, akid)] + [Tick(d)], DecideOp(id, proven), retention, false);
  }

  lemma SweptHolds(now: int, ops: seq<Op>, retention: nat, akid: Str)
    ensures var s := RunAll(Start(now), ops, retention, true);
            var found := LastPut(ops, akid);
            || Lookup(s.creds, akid) == found
            || (akid !in s.creds && found.Some? && found.value.expiresAt < s.now - retention)
  {
    hide Step;
    PlainStoreIsLastPut(now, ops, retention, akid);
    RunsRelated(now, ops, retention);
  }

  /** The three steps of a sweep and a fetch. */
  lemma SweepThenFetch(s: Run, retention: nat, id: nat, akid: Str)
    ensures var s1 := Step(s, ReadCutoff, retention, true);
            var s2 := Step(s1, SweepOp(s.now - retention), retention, true);
            Step(s2, Fetch(id, akid), retention, true).fetched ==
            s.fetched[id := Lookup(Swept(s.creds, s.now - retention), akid)]
  {
    hide Swept;
  }

  /** Right after a sweep a record is found exactly if it was put last and has not been expired for
      longer than the retention. */
  lemma SweptIsGone(now: int, ops: seq<Op>, retention: nat, id: nat, akid: Str)
    ensures var s := RunAll(Start(now), ops, retention, true);
            var swept := ops + [ReadCutoff] + [SweepOp(s.now - retention)];
            var s' := RunAll(Start(now), swept + [Fetch(id, akid)], retention, true);
            var found := LastPut(ops, akid);
            && id in s'.fetched
            && s'.fetched[id] == if found.Some? && found.value.expiresAt >= s.now - retention then found else None
  {
    hide Step, RunAll, LastPut, Swept;
    var s := RunAll(Start(now), ops, retention, true);
    SweptHolds(now, ops, retention, akid);
    RunSnoc(Start(now), ops, ReadCutoff, retention, true);
    RunSnoc(Start(now), ops + [ReadCutoff], SweepOp(s.now - retention), retention, true);
    RunSnoc(Start(now), ops + [ReadCutoff] + [SweepOp(s.now - retention)], Fetch(id, akid), retention, true);
    SweepThenFetch(s, retention, id, akid);
    SweptMeans(s.creds, s.now - retention, akid);
  }
}
