/** The device-flow polling loop (section 3.5 of RFC 8628). Intervals and lifetimes are in seconds, as
    the server states them; the clock and the requests' durations are in nanoseconds. */
module DeviceFlow {
  import opened Primitives

  /** One answer of the token endpoint. `delay` is how long the request itself took. */
  datatype Reply =
    | Pending(delay: nat) | SlowDown(delay: nat)
    | Granted(hasToken: bool, delay: nat) | Denied(delay: nat) | Expired(delay: nat) | Failed(delay: nat)

  datatype Outcome = Token | NoToken | AccessDenied | CodeExpired | EndpointError | Cancelled

  predicate Continues(r: Reply) { r.Pending? || r.SlowDown? }

  function Verdict(r: Reply): Outcome
    requires !Continues(r)
  {
    match r
    case Granted(hasToken, _) => if hasToken then Token else NoToken
    case Denied(_) => AccessDenied
    case Expired(_) => CodeExpired
    case Failed(_) => EndpointError
  }

  /** How a final reply ends the polling. */
  predicate Ends(r: Reply, outcome: Outcome) {
    && (outcome == Token <==> r.Granted? && r.hasToken)
    && (outcome == NoToken <==> r.Granted? && !r.hasToken)
    && (outcome == AccessDenied <==> r.Denied?)
    && (outcome == CodeExpired <==> r.Expired?)
    && (outcome == EndpointError <==> r.Failed?)
  }

  function SlowDowns(replies: seq<Reply>): (n: nat)
    ensures n <= |replies|
  {
    if replies == [] then 0
    else SlowDowns(replies[..|replies| - 1]) + if replies[|replies| - 1].SlowDown? then 1 else 0
  }

  function Sum(xs: seq<int>): int {
    if xs == [] then 0 else Sum(xs[..|xs| - 1]) + xs[|xs| - 1]
  }

  function FirstInterval(interval: int): (i: int)
    ensures i >= 1 && i >= interval && (i == 1 || i == interval)
  {
    if interval > 1 then interval else 1
  }

  /** The sleep before poll j: the first interval plus five seconds per slow_down so far. */
  function SleepBefore(interval: int, replies: seq<Reply>, j: nat): int
    requires j <= |replies|
  {
    FirstInterval(interval) + 5 * SlowDowns(replies[..j])
  }

  /** Poll. The context is cancelled once `replies` is used up, so every run is covered by some
      finite sequence of replies. The clock advances by each sleep and each request. */
  method Poll(interval: int, expiresIn: int, start: int, replies: seq<Reply>)
    returns (outcome: Outcome, sleeps: seq<int>)
    ensures |sleeps| <= |replies|
    ensures forall j :: 0 <= j < |sleeps| ==> sleeps[j] == SleepBefore(interval, replies, j)
    ensures expiresIn > 0 && sleeps != [] ==> Sum(sleeps[..|sleeps| - 1]) <= expiresIn
    ensures expiresIn > 0 && sleeps != [] ==> FewPolls(interval, expiresIn, replies, |sleeps|)
    ensures forall j :: 0 <= j < |sleeps| - 1 ==> replies[j].Pending? || replies[j].SlowDown?
    ensures expiresIn > 0 ==> forall j :: 0 <= j < |sleeps| ==> Elapsed(sleeps[..j], replies) <= expiresIn * SECOND
    ensures sleeps != [] && !replies[|sleeps| - 1].Pending? && !replies[|sleeps| - 1].SlowDown? ==>
              Ends(replies[|sleeps| - 1], outcome)
    ensures sleeps == [] || replies[|sleeps| - 1].Pending? || replies[|sleeps| - 1].SlowDown? ==>
              || (outcome == Cancelled && |sleeps| == |replies|)
              || (outcome == CodeExpired && expiresIn > 0 && Elapsed(sleeps, replies) > expiresIn * SECOND)
  {
    hide Sum, Elapsed, SlowDowns, FewPolls;
    assert SlowDowns(replies[..0]) == 0 by { NoReplies(replies); }
    ElapsedStart(replies);
    var pause := FirstInterval(interval);
    var deadline := start + expiresIn * SECOND;
    var now := start;
    sleeps := [];
    for i := 0 to |replies|
      invariant |sleeps| == i
      invariant pause == SleepBefore(interval, replies, i)
      invariant forall j :: 0 <= j < i ==> sleeps[j] == SleepBefore(interval, replies, j) && Continues(replies[j])
      invariant now == start + Elapsed(sleeps, replies)
      invariant expiresIn > 0 ==> forall j :: 0 <= j < i ==> Elapsed(sleeps[..j], replies) <= expiresIn * SECOND
      invariant expiresIn > 0 && i > 0 ==> Sum(sleeps[..i - 1]) <= expiresIn
      invariant expiresIn > 0 && i > 0 ==> FewPolls(interval, expiresIn, replies, i)
    {
      if expiresIn > 0 && now > deadline {
        return CodeExpired, sleeps;
      }
      ElapsedCoversSleeps(sleeps, replies);
      ElapsedNext(sleeps, pause, replies);
      SlowDownsNext(replies, i);
      assert (sleeps + [pause])[..i] == sleeps;
      assert forall j :: 0 <= j < i ==> (sleeps + [pause])[..j] == sleeps[..j];
      sleeps := sleeps + [pause];
      if expiresIn > 0 {
        PollBound(interval, expiresIn, replies, sleeps);
      }
      now := now + pause * SECOND + replies[i].delay;
      if !Continues(replies[i]) {
        return Verdict(replies[i]), sleeps;
      }
      if replies[i].SlowDown? {
        pause := pause + 5;
      }
    }
    return Cancelled, sleeps;
  }

  lemma NoReplies(replies: seq<Reply>)
    ensures SlowDowns(replies[..0]) == 0
  {
  }

  lemma SlowDownsNext(replies: seq<Reply>, i: nat)
    requires i < |replies|
    ensures SlowDowns(replies[..i+1]) == SlowDowns(replies[..i]) + if replies[i].SlowDown? then 1 else 0
  {
    assert replies[..i+1][..i] == replies[..i];
  }

  lemma ElapsedStart(replies: seq<Reply>)
    ensures Elapsed([], replies) == 0
  {
  }

  lemma ElapsedNext(sleeps: seq<int>, pause: int, replies: seq<Reply>)
    requires |sleeps| < |replies|
    ensures Elapsed(sleeps + [pause], replies) == Elapsed(sleeps, replies) + pause * SECOND + replies[|sleeps|].delay
  {
    assert (sleeps + [pause])[..|sleeps|] == sleeps;
  }

  /** Time since the start after the given sleeps and the requests that followed them. */
  ghost function Elapsed(sleeps: seq<int>, replies: seq<Reply>): int
    requires |sleeps| <= |replies|
  {
    if sleeps == [] then 0
    else Elapsed(sleeps[..|sleeps| - 1], replies) + sleeps[|sleeps| - 1] * SECOND + replies[|sleeps| - 1].delay
  }

  lemma {:induction false} ElapsedCoversSleeps(sleeps: seq<int>, replies: seq<Reply>)
    requires |sleeps| <= |replies|
    ensures Elapsed(sleeps, replies) >= Sum(sleeps) * SECOND
  {
    if sleeps != [] {
      ElapsedCoversSleeps(sleeps[..|sleeps| - 1], replies);
    }
  }

  /** A run of n sleeps with the given formula lasts at least n first intervals. */
  lemma {:induction false} SumAtLeast(interval: int, replies: seq<Reply>, sleeps: seq<int>)
    requires |sleeps| <= |replies|
    requires forall j :: 0 <= j < |sleeps| ==> sleeps[j] == SleepBefore(interval, replies, j)
    ensures Sum(sleeps) >= |sleeps| * FirstInterval(interval)
  {
    if sleeps != [] {
      SumAtLeast(interval, replies, sleeps[..|sleeps| - 1]);
      assert |sleeps| * FirstInterval(interval) == (|sleeps| - 1) * FirstInterval(interval) + FirstInterval(interval);
    }
  }

  lemma {:induction false} SlowDownsAll(replies: seq<Reply>)
    requires forall r :: r in replies ==> r.SlowDown?
    ensures SlowDowns(replies) == |replies|
  {
    if replies != [] {
      SlowDownsAll(replies[..|replies| - 1]);
    }
  }

  lemma {:induction false} SumAllSlow(interval: int, replies: seq<Reply>, sleeps: seq<int>)
    requires |sleeps| <= |replies|
    requires forall j :: 0 <= j < |sleeps| ==> sleeps[j] == SleepBefore(interval, replies, j)
    requires forall j :: 0 <= j < |sleeps| - 1 ==> replies[j].SlowDown?
    ensures 2 * Sum(sleeps) == 2 * (|sleeps| * FirstInterval(interval)) + 5 * (|sleeps| * (|sleeps| - 1))
  {
    if sleeps != [] {
      var n := |sleeps| - 1;
      SumAllSlow(interval, replies, sleeps[..n]);
      SlowDownsAll(replies[..n]);
      assert Sum(sleeps) == Sum(sleeps[..n]) + FirstInterval(interval) + 5 * n;
      Triangle(n, FirstInterval(interval));
    }
  }

  lemma Triangle(n: int, i: int)
    ensures (n + 1) * i == n * i + i && (n + 1) * n == n * (n - 1) + 2 * n
  {
  }

  /** At most E/i0 + 1 polls in a device-code lifetime of E seconds; fewer, quadratically, when
      every reply asks to slow down. */
  ghost predicate FewPolls(interval: int, expiresIn: int, replies: seq<Reply>, n: nat)
    requires 1 <= n <= |replies|
  {
    var i0 := FirstInterval(interval);
    && n <= expiresIn / i0 + 1
    && ((forall j :: 0 <= j < n - 1 ==> replies[j].SlowDown?) ==>
          2 * ((n - 1) * i0) + 5 * ((n - 1) * (n - 2)) <= 2 * expiresIn)
  }

  lemma PollBound(interval: int, expiresIn: int, replies: seq<Reply>, sleeps: seq<int>)
    requires expiresIn > 0 && sleeps != [] && |sleeps| <= |replies|
    requires forall j :: 0 <= j < |sleeps| ==> sleeps[j] == SleepBefore(interval, replies, j)
    requires Sum(sleeps[..|sleeps| - 1]) <= expiresIn
    ensures FewPolls(interval, expiresIn, replies, |sleeps|)
  {
    var n, i0 := |sleeps|, FirstInterval(interval);
    var first := sleeps[..n - 1];
    SumAtLeast(interval, replies, first);
    Quotient(n - 1, i0, expiresIn);
    if forall j :: 0 <= j < n - 1 ==> replies[j].SlowDown? {
      SumAllSlow(interval, replies, first);
    }
  }

  lemma Quotient(m: int, d: int, e: int)
    requires d >= 1 && m * d <= e
    ensures m <= e / d
  {
    var q := e / d;
    assert (q + 1) * d == q * d + d > e;
    if m > q {
      Monotone(q + 1, m, d);
    }
  }

  lemma Monotone(a: int, b: int, d: int)
    requires a <= b && d >= 1
    ensures a * d <= b * d
  {
  }
}
