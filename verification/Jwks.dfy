/** The rate limit on forced JWKS refreshes. */
module Jwks {
  import opened Primitives

  const COOLDOWN: int := 10 * SECOND

  /** One passage through the critical section: the clock is read once for the test and, when a
      refresh is due, once more for the stamp. */
  datatype Visit = Visit(tested: int, stamped: int)

  class IssuerState {
    var lastRefresh: int

    constructor (zero: int)
      ensures lastRefresh == zero
    {
      lastRefresh := zero;
    }

    /** The part of lookupKey under the issuer's mutex. */
    method Gate(v: Visit) returns (needRefresh: bool)
      modifies this
      ensures needRefresh == Due(old(lastRefresh), v)
      ensures lastRefresh == if needRefresh then v.stamped else old(lastRefresh)
    {
      needRefresh := Sub(v.tested, lastRefresh) > COOLDOWN;
      if needRefresh {
        lastRefresh := v.stamped;
      }
    }
  }

  predicate Due(last: int, v: Visit) { Sub(v.tested, last) > COOLDOWN }

  /** The refresh stamps of a run: the mutex serialises the visits of all concurrent requests. */
  function Stamps(last: int, run: seq<Visit>): seq<int>
    decreases |run|
  {
    if run == [] then []
    else if Due(last, run[0]) then [run[0].stamped] + Stamps(run[0].stamped, run[1..])
    else Stamps(last, run[1..])
  }

  /** The clock does not run backwards, inside a visit or from one to the next. */
  predicate Monotone(run: seq<Visit>) {
    && (forall i :: 0 <= i < |run| ==> run[i].tested <= run[i].stamped)
    && (forall i, j :: 0 <= i < j < |run| ==> run[i].stamped <= run[j].tested)
  }

  lemma {:induction false} StampsApart(last: int, run: seq<Visit>)
    requires Monotone(run)
    ensures var s := Stamps(last, run);
            && (s != [] ==> s[0] - last > COOLDOWN)
            && (forall i :: 0 <= i < |s| - 1 ==> s[i + 1] - s[i] > COOLDOWN)
    decreases |run|
  {
    if run != [] {
      StampsApart(if Due(last, run[0]) then run[0].stamped else last, run[1..]);
    }
  }

  lemma {:induction false} Spread(s: seq<int>)
    requires forall i :: 0 <= i < |s| - 1 ==> s[i + 1] - s[i] > COOLDOWN
    ensures |s| >= 2 ==> (|s| - 1) * COOLDOWN < s[|s| - 1] - s[0]
    decreases |s|
  {
    if |s| >= 2 {
      var t := s[..|s| - 1];
      Spread(t);
      assert s[|s| - 1] - s[|s| - 2] > COOLDOWN;
    }
  }

  /** Over every concurrent run: n forced refreshes need more than (n - 1) cooldowns, although
      the stamp is taken later than the test. */
  lemma RefreshesRateLimited(last: int, run: seq<Visit>, i: nat, j: nat)
    requires Monotone(run) && i < j < |Stamps(last, run)|
    ensures var s := Stamps(last, run); (j - i) * 10_000_000_000 < s[j] - s[i]
  {
    StampsApart(last, run);
    var s := Stamps(last, run);
    Spread(s[i..j + 1]);
  }

  function LastStamp(last: int, run: seq<Visit>): int {
    var s := Stamps(last, run);
    if s == [] then last else s[|s| - 1]
  }

  lemma {:induction false} StampsSnoc(last: int, run: seq<Visit>, v: Visit)
    ensures Stamps(last, run + [v]) == Stamps(last, run) + if Due(LastStamp(last, run), v) then [v.stamped] else []
    decreases |run|
  {
    if run == [] {
      assert [v][1..] == [] && run + [v] == [v];
    } else {
      assert (run + [v])[1..] == run[1..] + [v];
      StampsSnoc(if Due(last, run[0]) then run[0].stamped else last, run[1..], v);
    }
  }

  /** More than a cooldown after every stamp so far, the initial one included. */
  predicate Quiet(last: int, run: seq<Visit>, at: int) {
    at - last > 10_000_000_000 && forall s :: s in Stamps(last, run) ==> at - s > 10_000_000_000
  }

  lemma {:induction false} LastIsLatest(s: seq<int>, i: nat)
    requires i < |s| && forall k :: 0 <= k < |s| - 1 ==> s[k + 1] - s[k] > COOLDOWN
    ensures s[i] <= s[|s| - 1]
    decreases |s| - i
  {
    if i < |s| - 1 {
      LastIsLatest(s, i + 1);
    }
  }

  lemma QuietIsDue(last: int, run: seq<Visit>, v: Visit)
    requires Monotone(run)
    ensures Due(LastStamp(last, run), v) <==> Quiet(last, run, v.tested)
  {
    StampsApart(last, run);
    var s := Stamps(last, run);
    forall i | 0 <= i < |s| ensures s[i] <= s[|s| - 1] {
      LastIsLatest(s, i);
    }
    if s != [] {
      assert s[|s| - 1] in s && s[0] <= s[|s| - 1];
    }
  }

  lemma {:induction false} StampsStay(last: int, run: seq<Visit>, n: nat)
    requires n <= |run|
    ensures Stamps(last, run[..n]) <= Stamps(last, run)
    decreases |run| - n
  {
    if n == |run| {
      assert run[..n] == run;
    } else {
      StampsSnoc(last, run[..n], run[n]);
      assert run[..n] + [run[n]] == run[..n + 1];
      StampsStay(last, run, n + 1);
    }
  }

  /** The gate limits and does not starve: over every concurrent run, a visit refreshes if and only
      if it comes more than a cooldown after every refresh before it; and its stamp stays. */
  lemma RefreshesExactlyWhenQuiet(last: int, run: seq<Visit>, n: nat)
    requires Monotone(run) && n < |run|
    ensures Stamps(last, run[..n + 1]) ==
            Stamps(last, run[..n]) + if Quiet(last, run[..n], run[n].tested) then [run[n].stamped] else []
    ensures Stamps(last, run[..n + 1]) <= Stamps(last, run)
  {
    hide Stamps;
    assert run[..n] + [run[n]] == run[..n + 1];
    StampsSnoc(last, run[..n], run[n]);
    QuietIsDue(last, run[..n], run[n]);
    StampsStay(last, run, n + 1);
  }

  /** The stamps as the shared object produces them, visit by visit. */
  method RunGate(zero: int, run: seq<Visit>) returns (stamps: seq<int>)
    ensures stamps == Stamps(zero, run)
  {
    var issuer := new IssuerState(zero);
    stamps := [];
    for i := 0 to |run|
      invariant stamps + Stamps(issuer.lastRefresh, run[i..]) == Stamps(zero, run)
    {
      assert run[i..][1..] == run[i+1..];
      var due := issuer.Gate(run[i]);
      if due {
        stamps := stamps + [run[i].stamped];
      }
    }
    assert Stamps(issuer.lastRefresh, run[|run|..]) == [];
  }
}
