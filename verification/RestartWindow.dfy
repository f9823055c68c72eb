/** The supervisor's restart limiter (handleFailureMessage in pkg/actor/supervisor.go): a counter
    over windows anchored at the first restart outside the previous window. */
module RestartWindow {

  datatype Limiter = Limiter(limit: int, window: int, count: nat, anchor: int)

  // A failure seen at `now`: the limiter afterwards, and whether a restart follows.
  function OnFailure(l: Limiter, now: int): (Limiter, bool)
  {
    if now - l.anchor <= l.window then
      (l.(count := l.count + 1), l.count + 1 <= l.limit)
    else
      (l.(count := 1, anchor := now), true)
  }

  // The clock never goes back.
  ghost predicate Monotone(times: seq<int>)
  {
    forall i, j :: 0 <= i < j < |times| ==> times[i] <= times[j]
  }

  // The number of restarts at times in [lo, hi] that a sequence of failures leads to.
  function Restarts(l: Limiter, times: seq<int>, lo: int, hi: int): nat
    decreases times
  {
    if times == [] then 0
    else
      var (l', restarted) := OnFailure(l, times[0]);
      (if restarted && lo <= times[0] <= hi then 1 else 0) + Restarts(l', times[1..], lo, hi)
  }

  // The restarts the current window still allows.
  function Left(l: Limiter): nat { if l.limit > l.count then l.limit - l.count else 0 }

  // The restarts of a whole window: the limit, and at least the one that opens it.
  function Quota(l: Limiter): nat { if l.limit > 1 then l.limit else 1 }

  lemma {:induction false} PastInterval(l: Limiter, times: seq<int>, lo: int, hi: int)
    requires forall i :: 0 <= i < |times| ==> times[i] > hi
    ensures Restarts(l, times, lo, hi) == 0
    decreases times
  {
    if times != [] {
      PastInterval(OnFailure(l, times[0]).0, times[1..], lo, hi);
    }
  }

  // While the window is anchored inside an interval no longer than it, the interval sees no
  // restart beyond what that window still allows.
  lemma {:induction false} AnchoredInside(l: Limiter, times: seq<int>, lo: int, hi: int)
    requires Monotone(times) && hi - lo <= l.window && lo <= l.anchor
    ensures Restarts(l, times, lo, hi) <= Left(l)
    decreases times
  {
    if times != [] {
      var l' := OnFailure(l, times[0]).0;
      if times[0] - l.anchor <= l.window {
        AnchoredInside(l', times[1..], lo, hi);
      } else {
        PastInterval(l', times[1..], lo, hi);
      }
    }
  }

  // From the first failure in the interval on, the window then current and one more matter.
  lemma {:induction false} AfterEntering(l: Limiter, times: seq<int>, lo: int, hi: int)
    requires Monotone(times) && hi - lo <= l.window && forall i :: 0 <= i < |times| ==> times[i] >= lo
    ensures Restarts(l, times, lo, hi) <= Left(l) + Quota(l)
    decreases times
  {
    if times != [] {
      var l' := OnFailure(l, times[0]).0;
      if times[0] - l.anchor <= l.window {
        AfterEntering(l', times[1..], lo, hi);
      } else {
        AnchoredInside(l', times[1..], lo, hi);
      }
    }
  }

  // Any interval no longer than the window sees at most twice the limit.
  lemma {:induction false} RestartRate(l: Limiter, times: seq<int>, lo: int, hi: int)
    requires Monotone(times) && hi - lo <= l.window
    ensures Restarts(l, times, lo, hi) <= 2 * Quota(l)
    decreases times
  {
    if times != [] {
      if times[0] < lo {
        RestartRate(OnFailure(l, times[0]).0, times[1..], lo, hi);
      } else {
        AfterEntering(l, times, lo, hi);
      }
    }
  }

  // One window: from the restart that anchors it, at most the limit, and at least that one.
  lemma RestartsPerWindow(l: Limiter, times: seq<int>)
    requires Monotone(times) && times != [] && times[0] - l.anchor > l.window
    ensures Restarts(l, times, times[0], times[0] + l.window) <= Quota(l)
  {
    AnchoredInside(OnFailure(l, times[0]).0, times[1..], times[0], times[0] + l.window);
  }

  // ---------------------------------------------------------------- the bound is tight

  function Repeat(t: int, n: nat): (r: seq<int>)
    ensures |r| == n && forall i :: 0 <= i < n ==> r[i] == t
  {
    seq(n, _ => t)
  }

  lemma {:induction false} BurstInWindow(l: Limiter, t: int, n: nat, rest: seq<int>, lo: int, hi: int)
    requires t - l.anchor <= l.window && lo <= t <= hi && l.count + n <= l.limit
    ensures Restarts(l, Repeat(t, n) + rest, lo, hi) == n + Restarts(l.(count := l.count + n), rest, lo, hi)
    decreases n
  {
    if n == 0 {
      assert Repeat(t, n) + rest == rest;
    } else {
      assert (Repeat(t, n) + rest)[1..] == Repeat(t, n - 1) + rest;
      BurstInWindow(l.(count := l.count + 1), t, n - 1, rest, lo, hi);
    }
  }

  // A burst after the window is over is admitted again, up to the limit.
  lemma BurstAfterWindow(l: Limiter, t: int, lo: int, hi: int)
    requires t - l.anchor > l.window >= 0 && lo <= t <= hi && l.limit >= 1
    ensures Restarts(l, Repeat(t, l.limit), lo, hi) == l.limit
  {
    var times := Repeat(t, l.limit);
    var l' := l.(count := 1, anchor := t);
    assert times[1..] == Repeat(t, l.limit - 1) + [];
    BurstInWindow(l', t, l.limit - 1, [], lo, hi);
  }

  // A burst at the end of one window and another right after it reach twice the limit.
  lemma RateReached(limit: nat, window: nat)
    requires limit >= 1 && window >= 1
    ensures var times := Repeat(window, limit) + Repeat(window + 1, limit);
            Monotone(times) && Restarts(Limiter(limit, window, 0, 0), times, window, window + 1) == 2 * limit
  {
    var l := Limiter(limit, window, 0, 0);
    BurstInWindow(l, window, limit, Repeat(window + 1, limit), window, window + 1);
    BurstAfterWindow(l.(count := limit), window + 1, window, window + 1);
  }

  // ---------------------------------------------------------------- no refusal without cause

  function After(l: Limiter, times: seq<int>): Limiter
    decreases times
  {
    if times == [] then l else After(OnFailure(l, times[0]).0, times[1..])
  }

  // Whether a new window was opened on the way.
  function Reopened(l: Limiter, times: seq<int>): bool
    decreases times
  {
    times != [] && (times[0] - l.anchor > l.window || Reopened(OnFailure(l, times[0]).0, times[1..]))
  }

  function Least(a: int, b: int): int { if a < b then a else b }

  // Failures between a limiter's anchor and `hi`, in order.
  ghost predicate Between(l: Limiter, times: seq<int>, hi: int)
  {
    Monotone(times) && l.window >= 0 && forall i :: 0 <= i < |times| ==> l.anchor <= times[i] <= hi
  }

  lemma BetweenTail(l: Limiter, times: seq<int>, hi: int)
    requires times != [] && Between(l, times, hi)
    ensures Between(OnFailure(l, times[0]).0, times[1..], hi)
  {}

  lemma {:induction false} AnchorStays(l: Limiter, times: seq<int>, hi: int)
    requires Between(l, times, hi) && l.anchor <= hi
    ensures var m := After(l, times);
            && l.anchor <= m.anchor <= hi && m.limit == l.limit && m.window == l.window
            && (!Reopened(l, times) ==> m.anchor == l.anchor)
            && (Reopened(l, times) ==> Restarts(l, times, m.anchor, m.anchor) >= 1)
    decreases times
  {
    if times != [] {
      BetweenTail(l, times, hi);
      AnchorStays(OnFailure(l, times[0]).0, times[1..], hi);
    }
  }

  // Behind the anchor there are as many restarts as the counter shows, up to the limit; those of the
  // window a run began in may lie before it.
  lemma {:induction false} Served(l: Limiter, times: seq<int>, hi: int)
    requires Between(l, times, hi) && l.anchor <= hi
    ensures var m := After(l, times);
            Restarts(l, times, m.anchor, hi) + (if Reopened(l, times) then 0 else Least(l.count, l.limit)) >= Least(m.count, l.limit)
    decreases times
  {
    if times != [] {
      var l' := OnFailure(l, times[0]).0;
      BetweenTail(l, times, hi);
      AnchorStays(l', times[1..], hi);
      Served(l', times[1..], hi);
    }
  }

  // A failure is refused only if the limit was used up within the last window: since some moment not
  // further back than the window, the start or a restart, there were at least `limit` restarts.
  lemma RefusedOnlyAfterLimit(limit: int, window: nat, start: int, times: seq<int>, now: int)
    requires Between(Limiter(limit, window, 0, start), times, now) && start <= now
    requires !OnFailure(After(Limiter(limit, window, 0, start), times), now).1
    ensures var l := Limiter(limit, window, 0, start); var a := After(l, times).anchor;
            && now - window <= a <= now && Restarts(l, times, a, now) >= limit
            && (a == start || Restarts(l, times, a, a) >= 1)
  {
    var l := Limiter(limit, window, 0, start);
    AnchorStays(l, times, now);
    Served(l, times, now);
  }
}
