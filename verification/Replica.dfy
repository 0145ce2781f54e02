/** The shared store seen through client-side caches: server-assisted invalidation is asynchronous
    and the cache time bounds how long it can be missed. */
module Replica {
  import opened Seqs
  import opened Strings
  import opened Store

  /** A cached answer (possibly "no such key") and when it was fetched. */
  datatype Cached = Cached(value: Option<Credentials>, fetchedAt: int)

  /** One proxy's connection: its cache, and the invalidations pushed to it, oldest first. */
  datatype Client = Client(cache: map<Str, Cached>, pushes: seq<Str>)

  /** `deletedAt` holds the keys deleted and not put again since, with the time of the delete. */
  datatype State = State(now: int, server: Records, clients: map<nat, Client>, deletedAt: map<Str, int>)

  datatype Op =
    | Tick(d: nat)
    | PutOp(c: Credentials)
    | DeleteOp(akid: Str)
    | Expire(akid: Str)
    | Deliver(client: nat)
    | Fetch(client: nat, akid: Str)
    | Evict(client: nat, akid: Str)

  function Start(now: int, ids: set<nat>): State {
    State(now, map[], map i | i in ids :: Client(map[], []), map[])
  }

  /** A write pushes an invalidation to every client that has the key cached. */
  function Pushed(clients: map<nat, Client>, akid: Str): map<nat, Client> {
    map i | i in clients :: Notify(clients[i], akid)
  }

  function Notify(c: Client, akid: Str): Client {
    if akid in c.cache then c.(pushes := c.pushes + [akid]) else c
  }

  function Step(s: State, op: Op): State {
    match op
    case Tick(d) => s.(now := s.now + d)
    case PutOp(c) =>
      s.(server := s.server[c.akid := c], clients := Pushed(s.clients, c.akid), deletedAt := s.deletedAt - {c.akid})
    case DeleteOp(akid) =>
      s.(server := s.server - {akid}, clients := Pushed(s.clients, akid),
         deletedAt := if akid in s.deletedAt then s.deletedAt else s.deletedAt[akid := s.now])
    case Expire(akid) => s.(server := s.server - {akid}, clients := Pushed(s.clients, akid))
    case Deliver(i) =>
      if i in s.clients && s.clients[i].pushes != []
      then var c := s.clients[i];
           s.(clients := s.clients[i := Client(c.cache - {c.pushes[0]}, c.pushes[1..])])
      else s
    case Fetch(i, akid) =>
      if i in s.clients
      then var c := s.clients[i];
           s.(clients := s.clients[i := c.(cache := c.cache[akid := Cached(Store.Lookup(s.server, akid), s.now)])])
      else s
    case Evict(i, akid) =>
      if i in s.clients
      then var c := s.clients[i]; s.(clients := s.clients[i := c.(cache := c.cache - {akid})])
      else s
  }

  function RunAll(s: State, ops: seq<Op>): State {
    if ops == [] then s else Step(RunAll(s, ops[..|ops| - 1]), ops[|ops| - 1])
  }

  /** A Get on a replica: the cached answer while it is younger than cacheTTL, else a fetch. */
  function Get(s: State, i: nat, akid: Str, cacheTTL: int): Option<Credentials>
    requires i in s.clients
  {
    var cache := s.clients[i].cache;
    if akid in cache && s.now < cache[akid].fetchedAt + cacheTTL then cache[akid].value
    else Store.Lookup(s.server, akid)
  }

  /** A cached answer is the server's, or its invalidation is on the way. */
  predicate Fresh(c: Client, server: Records) {
    forall k :: k in c.cache ==> c.cache[k].value == Store.Lookup(server, k) || k in c.pushes
  }

  /** Nothing cached was fetched in the future, and nothing deleted was fetched after its delete. */
  predicate Dated(c: Client, now: int, deletedAt: map<Str, int>) {
    forall k :: k in c.cache ==>
      && c.cache[k].fetchedAt <= now
      && (k in deletedAt && c.cache[k].value.Some? ==> c.cache[k].fetchedAt <= deletedAt[k])
  }

  ghost predicate Inv(s: State) {
    && (forall k :: k in s.deletedAt ==> k !in s.server && s.deletedAt[k] <= s.now)
    && (forall i :: i in s.clients ==> Fresh(s.clients[i], s.server) && Dated(s.clients[i], s.now, s.deletedAt))
  }

  lemma NotifyFresh(c: Client, akid: Str, before: Records, after: Records)
    requires Fresh(c, before)
    requires forall k :: k != akid ==> Store.Lookup(before, k) == Store.Lookup(after, k)
    ensures Fresh(Notify(c, akid), after)
  {
  }

  lemma DeliverFresh(c: Client, server: Records)
    requires Fresh(c, server) && c.pushes != []
    ensures Fresh(Client(c.cache - {c.pushes[0]}, c.pushes[1..]), server)
  {
    var k0 := c.pushes[0];
    forall k | k in c.cache && k != k0 && k in c.pushes ensures k in c.pushes[1..] {
      var j :| 0 <= j < |c.pushes| && c.pushes[j] == k;
      assert c.pushes[1..][j - 1] == k;
    }
  }

  /** A write to one key: the server changes there only, and every caching client is told. */
  lemma WriteKeeps(s: State, akid: Str, server: Records, deletedAt: map<Str, int>)
    requires Inv(s)
    requires forall k :: k != akid ==> Store.Lookup(s.server, k) == Store.Lookup(server, k)
    requires forall k :: k in deletedAt ==>
               k !in server && ((k in s.deletedAt && deletedAt[k] == s.deletedAt[k]) || deletedAt[k] == s.now)
    ensures Inv(s.(server := server, clients := Pushed(s.clients, akid), deletedAt := deletedAt))
  {
    forall i | i in s.clients
      ensures Fresh(Notify(s.clients[i], akid), server) && Dated(Notify(s.clients[i], akid), s.now, deletedAt)
    {
      assert Dated(s.clients[i], s.now, s.deletedAt);
      NotifyFresh(s.clients[i], akid, s.server, server);
    }
  }

  lemma ClientKeeps(s: State, i: nat, c: Client)
    requires Inv(s) && i in s.clients && Fresh(c, s.server) && Dated(c, s.now, s.deletedAt)
    ensures Inv(s.(clients := s.clients[i := c]))
  {
  }

  lemma StepKeeps(s: State, op: Op)
    requires Inv(s)
    ensures Inv(Step(s, op))
  {
    match op
    case Tick(d) =>
    case PutOp(c) => WriteKeeps(s, c.akid, s.server[c.akid := c], s.deletedAt - {c.akid});
    case DeleteOp(akid) =>
      WriteKeeps(s, akid, s.server - {akid},
                 if akid in s.deletedAt then s.deletedAt else s.deletedAt[akid := s.now]);
    case Expire(akid) => WriteKeeps(s, akid, s.server - {akid}, s.deletedAt);
    case Deliver(i) =>
      if i in s.clients && s.clients[i].pushes != [] {
        var c := s.clients[i];
        DeliverFresh(c, s.server);
        ClientKeeps(s, i, Client(c.cache - {c.pushes[0]}, c.pushes[1..]));
      }
    case Fetch(i, akid) =>
      if i in s.clients {
        var c := s.clients[i];
        ClientKeeps(s, i, c.(cache := c.cache[akid := Cached(Store.Lookup(s.server, akid), s.now)]));
      }
    case Evict(i, akid) =>
      if i in s.clients {
        var c := s.clients[i];
        ClientKeeps(s, i, c.(cache := c.cache - {akid}));
      }
  }

  lemma {:induction false} RunKeeps(s: State, ops: seq<Op>)
    requires Inv(s)
    ensures Inv(RunAll(s, ops))
  {
    if ops != [] {
      RunKeeps(s, ops[..|ops| - 1]);
      StepKeeps(RunAll(s, ops[..|ops| - 1]), ops[|ops| - 1]);
    }
  }

  /** In every run a replica's cached record differs from the server's only while an invalidation
      for it is undelivered. */
  lemma StaleOnlyWhilePushed(now: int, ids: set<nat>, ops: seq<Op>, i: nat, k: Str)
    requires var s := RunAll(Start(now, ids), ops); i in s.clients && k in s.clients[i].cache
    ensures var s := RunAll(Start(now, ids), ops);
            s.clients[i].cache[k].value != Store.Lookup(s.server, k) ==> k in s.clients[i].pushes
  {
    RunKeeps(Start(now, ids), ops);
  }

  lemma {:induction false} StillDeleted(s: State, akid: Str, ops: seq<Op>)
    requires akid in s.deletedAt
    requires forall op :: op in ops && op.PutOp? ==> op.c.akid != akid
    ensures var e := RunAll(s, ops);
            akid in e.deletedAt && e.deletedAt[akid] == s.deletedAt[akid] && e.clients.Keys == s.clients.Keys
  {
    if ops != [] {
      StillDeleted(s, akid, ops[..|ops| - 1]);
    }
  }

  /** Bounded staleness: even if no invalidation is ever delivered, a Get that starts cacheTTL or
      more after a Delete does not return the record, on any replica, unless it was put again. */
  lemma GoneAfterCacheTtl(now: int, ids: set<nat>, before: seq<Op>, akid: Str, after: seq<Op>, i: nat, cacheTTL: int)
    requires i in ids && cacheTTL >= 0
    requires forall op :: op in after && op.PutOp? ==> op.c.akid != akid
    requires var deleted := Step(RunAll(Start(now, ids), before), Op.DeleteOp(akid));
             RunAll(deleted, after).now >= deleted.now + cacheTTL
    ensures var s := RunAll(Step(RunAll(Start(now, ids), before), Op.DeleteOp(akid)), after);
            i in s.clients && Get(s, i, akid, cacheTTL) == None
  {
    var start := Start(now, ids);
    RunKeeps(start, before);
    ClientsStay(start, before);
    var s0 := RunAll(start, before);
    StepKeeps(s0, Op.DeleteOp(akid));
    var deleted := Step(s0, Op.DeleteOp(akid));
    RunKeeps(deleted, after);
    StillDeleted(deleted, akid, after);
  }

  lemma {:induction false} ClientsStay(s: State, ops: seq<Op>)
    ensures RunAll(s, ops).clients.Keys == s.clients.Keys
  {
    if ops != [] {
      ClientsStay(s, ops[..|ops| - 1]);
      StepClients(RunAll(s, ops[..|ops| - 1]), ops[|ops| - 1]);
    }
  }

  lemma StepClients(s: State, op: Op)
    ensures Step(s, op).clients.Keys == s.clients.Keys
  {
    hide Notify, Store.Lookup;
  }

  /** Once a replica has no invalidation outstanding, its Get is the server's. */
  lemma QuietReplicaReadsServer(now: int, ids: set<nat>, ops: seq<Op>, i: nat, akid: Str, cacheTTL: int)
    requires var s := RunAll(Start(now, ids), ops); i in s.clients && akid !in s.clients[i].pushes
    ensures var s := RunAll(Start(now, ids), ops); Get(s, i, akid, cacheTTL) == Store.Lookup(s.server, akid)
  {
    RunKeeps(Start(now, ids), ops);
  }

  // ---- What the server holds, and what a replica does with it ----

  /** The last write to a key: a put record, or nothing after a delete or an expiry. */
  function LastWrite(ops: seq<Op>, akid: Str): Option<Credentials> {
    if ops == [] then None
    else
      var last := ops[|ops| - 1];
      if last.PutOp? && last.c.akid == akid then Some(last.c)
      else if last == DeleteOp(akid) || last == Expire(akid) then None
      else LastWrite(ops[..|ops| - 1], akid)
  }

  lemma {:induction false} ServerIsLastWrite(now: int, ids: set<nat>, ops: seq<Op>, akid: Str)
    ensures Store.Lookup(RunAll(Start(now, ids), ops).server, akid) == LastWrite(ops, akid)
  {
    if ops != [] {
      ServerIsLastWrite(now, ids, ops[..|ops| - 1], akid);
      StepServer(RunAll(Start(now, ids), ops[..|ops| - 1]), ops[|ops| - 1], akid);
    }
  }

  lemma StepServer(s: State, op: Op, akid: Str)
    ensures Store.Lookup(Step(s, op).server, akid) ==
            if op.PutOp? && op.c.akid == akid then Some(op.c)
            else if op == DeleteOp(akid) || op == Expire(akid) then None
            else Store.Lookup(s.server, akid)
  {
    hide Notify;
  }

  /** A young cached answer is used, and everything else is read from the server. */
  lemma GetMeans(s: State, i: nat, akid: Str, cacheTTL: int)
    requires i in s.clients
    ensures akid in s.clients[i].cache && s.now - s.clients[i].cache[akid].fetchedAt < cacheTTL ==>
              Get(s, i, akid, cacheTTL) == s.clients[i].cache[akid].value
    ensures akid !in s.clients[i].cache || s.now - s.clients[i].cache[akid].fetchedAt >= cacheTTL ==>
              Get(s, i, akid, cacheTTL) == Store.Lookup(s.server, akid)
  {
  }

  function Deliveries(i: nat, n: nat): seq<Op> { seq(n, j => Deliver(i)) }

  lemma {:induction false} Drained(s: State, i: nat, n: nat)
    requires i in s.clients && n <= |s.clients[i].pushes|
    ensures var e := RunAll(s, Deliveries(i, n));
            e.server == s.server && e.now == s.now && i in e.clients && e.clients[i].pushes == s.clients[i].pushes[n..]
  {
    if n > 0 {
      assert Deliveries(i, n)[..n - 1] == Deliveries(i, n - 1);
      Drained(s, i, n - 1);
    }
  }

  lemma {:induction false} RunAppend(s: State, a: seq<Op>, b: seq<Op>)
    ensures RunAll(s, a + b) == RunAll(RunAll(s, a), b)
  {
    hide Step;
    if b == [] {
      assert a + b == a;
    } else {
      assert (a + b)[..|a + b| - 1] == a + b[..|b| - 1];
      RunAppend(s, a, b[..|b| - 1]);
    }
  }

  /** Once the outstanding invalidations are delivered, a replica answers what was written last. */
  lemma DrainedReadsLastWrite(now: int, ids: set<nat>, ops: seq<Op>, i: nat, akid: Str, cacheTTL: int)
    requires i in ids
    ensures var s := RunAll(Start(now, ids), ops);
            && i in s.clients
            && var e := RunAll(s, Deliveries(i, |s.clients[i].pushes|));
               i in e.clients && Get(e, i, akid, cacheTTL) == LastWrite(ops, akid)
  {
    hide Step, Start, Inv, Get;
    ClientsStay(Start(now, ids), ops);
    assert Start(now, ids).clients.Keys == ids by { StartClients(now, ids); }
    var s := RunAll(Start(now, ids), ops);
    var more := Deliveries(i, |s.clients[i].pushes|);
    Drained(s, i, |s.clients[i].pushes|);
    RunAppend(Start(now, ids), ops, more);
    QuietReplicaReadsServer(now, ids, ops + more, i, akid, cacheTTL);
    ServerIsLastWrite(now, ids, ops, akid);
  }

  lemma StartClients(now: int, ids: set<nat>)
    ensures Start(now, ids).clients.Keys == ids
  {
  }
}
