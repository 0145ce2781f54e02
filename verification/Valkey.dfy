/** The shared store: records sealed to their key, kept by the server for a bounded time. */
module Valkey {
  import opened Seqs
  import opened Strings
  import opened Primitives
  import opened Store

  // ---- Sealing ----

  /** AES-GCM as an ideal AEAD: a sealed value opens to its plaintext under the associated data it
      was sealed with, and under no other. */
  datatype Sealed = Sealed(nonce: int, plain: Credentials, aad: Str)

  function Seal(c: Credentials, nonce: int): Sealed { Sealed(nonce, c, c.akid) }

  function Open(s: Sealed, aad: Str): Option<Credentials> {
    if s.aad == aad then Some(s.plain) else None
  }

  // ---- The record's time to live ----

  /** `d.Milliseconds()`: truncation toward zero. */
  function Milliseconds(d: int): int {
    if d >= 0 then d / MILLISECOND else -(-d / MILLISECOND)
  }

  function RecordTtl(expiresAt: int, retention: int, now: int): int {
    var ttl := Sub(expiresAt + retention, now);
    if ttl <= 0 then retention else ttl
  }

  /** The PX argument of the SET. The server rejects one that is not positive. */
  function Px(expiresAt: int, retention: int, now: int): int {
    Milliseconds(RecordTtl(expiresAt, retention, now))
  }

  /** When the server drops a record put at `now`. */
  function Deadline(expiresAt: int, retention: int, now: int): int {
    now + Px(expiresAt, retention, now) * MILLISECOND
  }

  /** With a retention of a millisecond (less one nanosecond) the SET of an unexpired credential
      succeeds and the record outlives the credential. */
  lemma RecordOutlives(expiresAt: int, retention: int, now: int)
    requires MILLISECOND - 1 <= retention && now < expiresAt
    requires expiresAt + retention - now <= MAX_INT64
    ensures Px(expiresAt, retention, now) > 0 && Deadline(expiresAt, retention, now) >= expiresAt
  {
  }

  /** That bound is exact: a shorter retention loses some credential before it expires. */
  lemma ShorterRetentionLoses(retention: int)
    requires 0 <= retention < MILLISECOND - 1
    ensures exists expiresAt :: 0 < expiresAt && Deadline(expiresAt, retention, 0) < expiresAt
  {
    var expiresAt := 2 * MILLISECOND - 1 - retention;
    assert RecordTtl(expiresAt, retention, 0) == 2 * MILLISECOND - 1;
    assert (2 * MILLISECOND - 1) / MILLISECOND == 1;
    assert Deadline(expiresAt, retention, 0) == MILLISECOND < expiresAt;
  }

  // ---- The server ----

  datatype Entry = Entry(sealed: Sealed, deadline: int)

  type Server = map<Str, Entry>

  function Present(s: Server, akid: Str, now: int): bool { akid in s && now < s[akid].deadline }

  /** Get served by the server: unknown, the record, or a decryption error. */
  datatype Fetched = Missing | Found(c: Credentials) | Undecryptable

  function ServerGet(s: Server, akid: Str, now: int): Fetched {
    if !Present(s, akid, now) then Missing
    else match Open(s[akid].sealed, akid) {
      case None => Undecryptable
      case Some(c) => Found(c)
    }
  }

  function ServerPut(s: Server, c: Credentials, nonce: int, retention: int, now: int): Option<Server> {
    if Px(c.expiresAt, retention, now) <= 0 then None
    else Some(s[c.akid := Entry(Seal(c, nonce), Deadline(c.expiresAt, retention, now))])
  }

  // ---- Records are bound to their keys ----

  datatype Write = WPut(c: Credentials, nonce: int, at: int) | WDelete(akid: Str) | WGraft(from: Str, to: Str)

  /** Writes by proxies, and by someone with write access who moves ciphertexts between keys. */
  function Apply(s: Server, w: Write, retention: int): Server {
    match w
    case WPut(c, nonce, at) =>
      var r := ServerPut(s, c, nonce, retention, at);
      if r.Some? then r.value else s
    case WDelete(akid) => s - {akid}
    case WGraft(from, to) => if from in s then s[to := s[from]] else s
  }

  function ApplyAll(s: Server, ws: seq<Write>, retention: int): Server {
    if ws == [] then s else Apply(ApplyAll(s, ws[..|ws| - 1], retention), ws[|ws| - 1], retention)
  }

  ghost predicate WasPut(ws: seq<Write>, c: Credentials) {
    exists i :: 0 <= i < |ws| && ws[i].WPut? && ws[i].c == c
  }

  lemma {:induction false} EntriesWerePut(ws: seq<Write>, retention: int, k: Str)
    requires k in ApplyAll(map[], ws, retention)
    ensures var sealed := ApplyAll(map[], ws, retention)[k].sealed;
            sealed.aad == sealed.plain.akid && WasPut(ws, sealed.plain)
  {
    var n := |ws| - 1;
    var before := ApplyAll(map[], ws[..n], retention);
    var k0 := if ws[n].WGraft? && ws[n].from in before && k == ws[n].to then ws[n].from else k;
    if ws[n].WPut? && ws[n].c.akid == k && ServerPut(before, ws[n].c, ws[n].nonce, retention, ws[n].at).Some? {
      assert ws[n].c == ApplyAll(map[], ws, retention)[k].sealed.plain;
    } else {
      EntriesWerePut(ws[..n], retention, k0);
      var c := before[k0].sealed.plain;
      var i :| 0 <= i < n && ws[..n][i].WPut? && ws[..n][i].c == c;
      assert ws[i].c == c;
    }
  }

  /** However ciphertexts were moved around, a Get returns a record only under its own access key,
      and only one that was put. */
  lemma OpensOnlyUnderItsKey(ws: seq<Write>, retention: int, akid: Str, now: int)
    ensures var got := ServerGet(ApplyAll(map[], ws, retention), akid, now);
            got.Found? ==> got.c.akid == akid && WasPut(ws, got.c)
  {
    if akid in ApplyAll(map[], ws, retention) {
      EntriesWerePut(ws, retention, akid);
    }
  }

  // ---- The TTL store refines the map store ----

  /** One atomic step of a run; requests fetch and decide in separate steps. */
  datatype Op =
    | Tick(d: nat)
    | PutOp(c: Credentials, nonce: int)
    | DeleteOp(akid: Str)
    | Fetch(id: nat, akid: Str)
    | DecideOp(id: nat, proven: Credentials -> bool)

  /** The server's answer next to the map's. */
  datatype Both<T> = Both(server: T, plain: T)

  /** A server next to the map of everything successfully put and not deleted. */
  datatype Twin = Twin(now: int, server: Server, plain: Records,
                       fetched: map<nat, Both<Option<Credentials>>>, decisions: seq<Both<Decision>>)

  function ToOption(f: Fetched): Option<Credentials> { if f.Found? then Some(f.c) else None }

  function Answer(found: Option<Credentials>, now: int, proven: Credentials -> bool): Decision {
    Decide(found, now, found.Some? && proven(found.value))
  }

  function Step(p: Twin, op: Op, retention: int): Twin {
    match op
    case Tick(d) => p.(now := p.now + d)
    case PutOp(c, nonce) =>
      var r := ServerPut(p.server, c, nonce, retention, p.now);
      if r.Some? then p.(server := r.value, plain := p.plain[c.akid := c]) else p
    case DeleteOp(akid) => p.(server := p.server - {akid}, plain := p.plain - {akid})
    case Fetch(id, akid) =>
      p.(fetched := p.fetched[id := Both(ToOption(ServerGet(p.server, akid, p.now)), Store.Lookup(p.plain, akid))])
    case DecideOp(id, proven) =>
      if id !in p.fetched then p
      else p.(decisions := p.decisions + [Both(Answer(p.fetched[id].server, p.now, proven),
                                               Answer(p.fetched[id].plain, p.now, proven))])
  }

  function RunAll(now: int, ops: seq<Op>, retention: int): Twin {
    if ops == [] then Twin(now, map[], map[], map[], [])
    else Step(RunAll(now, ops[..|ops| - 1], retention), ops[|ops| - 1], retention)
  }

  /** Expired for more than the retention, less the millisecond that truncation may cost. */
  predicate LongGone(c: Credentials, now: int, retention: int) {
    now > c.expiresAt + retention - MILLISECOND
  }

  predicate DecisionsAgree(d: Both<Decision>, retention: int) {
    || d.server == d.plain
    || (d.server.UnknownAkid? && d.plain.ExpiredToken? && LongGone(d.plain.c, d.plain.at, retention))
  }

  predicate FetchesAgree(f: Both<Option<Credentials>>, now: int, retention: int) {
    f.server == f.plain || (f.server.None? && f.plain.Some? && LongGone(f.plain.value, now, retention))
  }

  ghost predicate Refines(p: Twin, retention: int) {
    && p.server.Keys == p.plain.Keys
    && (forall k :: k in p.server ==>
          && p.server[k].sealed.aad == k && p.server[k].sealed.plain == p.plain[k]
          && LongGone(p.plain[k], p.server[k].deadline, retention))
    && (forall id :: id in p.fetched ==> FetchesAgree(p.fetched[id], p.now, retention))
    && (forall i :: 0 <= i < |p.decisions| ==> DecisionsAgree(p.decisions[i], retention))
  }

  lemma PutDeadline(c: Credentials, retention: int, now: int)
    requires MILLISECOND - 1 <= retention && c.expiresAt + retention - now <= MAX_INT64
    requires Px(c.expiresAt, retention, now) > 0
    ensures LongGone(c, Deadline(c.expiresAt, retention, now), retention)
  {
  }

  lemma StepRefines(p: Twin, op: Op, retention: int)
    requires MILLISECOND - 1 <= retention && Refines(p, retention)
    requires op.PutOp? ==> op.c.expiresAt + retention - p.now <= MAX_INT64
    ensures Refines(Step(p, op, retention), retention)
  {
    if op.PutOp? && Px(op.c.expiresAt, retention, p.now) > 0 {
      PutDeadline(op.c, retention, p.now);
    }
  }

  /** No record asks for a lifetime of more than 292 years. */
  ghost predicate InRange(now: int, ops: seq<Op>, retention: int) {
    forall i :: 0 <= i < |ops| && ops[i].PutOp? ==>
      ops[i].c.expiresAt + retention - RunAll(now, ops[..i], retention).now <= MAX_INT64
  }

  lemma {:induction false} RunRefines(now: int, ops: seq<Op>, retention: int)
    requires MILLISECOND - 1 <= retention && InRange(now, ops, retention)
    ensures Refines(RunAll(now, ops, retention), retention)
  {
    if ops != [] {
      var init := ops[..|ops| - 1];
      assert forall i :: 0 <= i < |init| ==> init[..i] == ops[..i];
      RunRefines(now, init, retention);
      StepRefines(RunAll(now, init, retention), ops[|ops| - 1], retention);
    }
  }

  /** In every interleaving the TTL store and the map accept and refuse the same requests; they
      differ at most in "expired" versus "unknown", and only for records that have been expired for
      longer than the retention less a millisecond. */
  lemma TtlStoreRefinesMap(now: int, ops: seq<Op>, retention: int)
    requires MILLISECOND - 1 <= retention && InRange(now, ops, retention)
    ensures forall d :: d in RunAll(now, ops, retention).decisions ==>
              DecisionsAgree(d, retention) && (d.server.Accept? <==> d.plain.Accept?)
  {
    RunRefines(now, ops, retention);
  }

  /** The record under a key that was put last, successfully, and not deleted since. */
  function LastPut(now: int, ops: seq<Op>, retention: int, akid: Str): Option<Credentials> {
    if ops == [] then None
    else
      var init, last := ops[..|ops| - 1], ops[|ops| - 1];
      if last.PutOp? && last.c.akid == akid && Px(last.c.expiresAt, retention, RunAll(now, init, retention).now) > 0
      then Some(last.c)
      else if last == DeleteOp(akid) then None
      else LastPut(now, init, retention, akid)
  }

  lemma {:induction false} PlainIsLastPut(now: int, ops: seq<Op>, retention: int, akid: Str)
    ensures Store.Lookup(RunAll(now, ops, retention).plain, akid) == LastPut(now, ops, retention, akid)
  {
    hide Px, Deadline;
    if ops != [] {
      PlainIsLastPut(now, ops[..|ops| - 1], retention, akid);
    }
  }

  lemma RunSnoc(now: int, ops: seq<Op>, op: Op, retention: int)
    ensures RunAll(now, ops + [op], retention) == Step(RunAll(now, ops, retention), op, retention)
  {
    assert (ops + [op])[..|ops|] == ops;
  }

  /** A request that fetches a key and decides a while later: the map decides by what was put last. */
  lemma PlainDecision(now: int, ops: seq<Op>, retention: int, id: nat, akid: Str, d: nat, proven: Credentials -> bool)
    ensures var p := RunAll(now, ops, retention);
            var q := RunAll(now, ops + [Fetch(id, akid)] + [Tick(d)] + [DecideOp(id, proven)], retention);
            var found := LastPut(now, ops, retention, akid);
            && q.now == p.now + d && |q.decisions| == |p.decisions| + 1
            && q.decisions[|p.decisions|].plain == Decide(found, p.now + d, found.Some? && proven(found.value))
  {
    hide Px, Deadline;
    PlainIsLastPut(now, ops, retention, akid);
    RunSnoc(now, ops, Fetch(id, akid), retention);
    RunSnoc(now, ops + [Fetch(id, akid)], Tick(d), retention);
    RunSnoc(now, ops + [Fetch(id, akid)] + [Tick(d)], DecideOp(id, proven), retention);
  }

  /** The time to live in whole milliseconds, never more than asked for and less than one short. */
  lemma PxMeans(expiresAt: int, retention: int, now: int)
    requires now < expiresAt && 0 <= retention && expiresAt + retention - now <= MAX_INT64
    ensures Px(expiresAt, retention, now) * 1_000_000 <= expiresAt + retention - now
              < (Px(expiresAt, retention, now) + 1) * 1_000_000
    ensures Deadline(expiresAt, retention, now) <= expiresAt + retention
  {
  }

  /** A record that is put when it has been expired beyond the retention is kept for the retention. */
  lemma PxOfExpired(expiresAt: int, retention: int, now: int)
    requires expiresAt + retention <= now && 0 <= retention
    ensures Px(expiresAt, retention, now) * 1_000_000 <= retention < (Px(expiresAt, retention, now) + 1) * 1_000_000
  {
  }

  /** Put fails only for a credential that has already expired. */
  lemma PutFailsOnlyExpired(s: Server, c: Credentials, nonce: int, retention: int, now: int)
    requires MILLISECOND - 1 <= retention && c.expiresAt + retention - now <= MAX_INT64
    ensures ServerPut(s, c, nonce, retention, now).None? ==> Expired(c, now)
  {
    if !Expired(c, now) {
      RecordOutlives(c.expiresAt, retention, now);
    }
  }
}
