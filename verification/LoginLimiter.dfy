/** Login attempt limiter (`check_login_rate_limit` in backend/auth.py). */
module LoginLimiter {
  import opened Collections

  const LOGIN_WINDOW := 300.0
  const LOGIN_MAX := 10

  /** `(count, window_start)` kept per IP. */
  datatype Window = Window(count: nat, start: real)

  function Opened(w: Option<Window>, now: real): Window {
    if w.Some? then w.value else Window(0, now)
  }

  predicate Expired(w: Option<Window>, now: real) {
    now - Opened(w, now).start > LOGIN_WINDOW
  }

  predicate Admits(w: Option<Window>, now: real) {
    Expired(w, now) || Opened(w, now).count < LOGIN_MAX
  }

  function Next(w: Option<Window>, now: real): Option<Window> {
    if Expired(w, now) then Some(Window(1, now))
    else if Opened(w, now).count >= LOGIN_MAX then w
    else Some(Window(Opened(w, now).count + 1, Opened(w, now).start))
  }

  class Attempts {
    var windows: map<string, Window>

    ghost function WindowOf(ip: string): Option<Window>
      reads this
    {
      if ip in windows then Some(windows[ip]) else None
    }

    constructor ()
      ensures forall ip :: WindowOf(ip) == None
    {
      windows := map[];
    }

    method Check(ip: string, now: real) returns (allowed: bool)
      modifies this
      ensures allowed == Admits(old(WindowOf(ip)), now)
      ensures WindowOf(ip) == Next(old(WindowOf(ip)), now)
      ensures forall other :: other != ip ==> WindowOf(other) == old(WindowOf(other))
    {
      var count, start := 0, now;
      if ip in windows {
        count, start := windows[ip].count, windows[ip].start;
      }
      if now - start > LOGIN_WINDOW {
        windows := windows[ip := Window(1, now)];
        return true;
      }
      if count >= LOGIN_MAX {
        return false;
      }
      windows := windows[ip := Window(count + 1, start)];
      return true;
    }
  }

  // ---- Runs of attempts from one IP ----

  ghost predicate Nondecreasing(times: seq<real>) {
    forall i, j :: 0 <= i < j < |times| ==> times[i] <= times[j]
  }

  ghost function After(times: seq<real>): Option<Window> {
    if times == [] then None else Next(After(times[..|times| - 1]), times[|times| - 1])
  }

  ghost predicate AllowedAt(times: seq<real>, k: nat)
    requires k < |times|
  {
    Admits(After(times[..k]), times[k])
  }

  /** Attempts allowed from the i-th one to the last. */
  ghost function AllowedSince(times: seq<real>, i: nat): nat
    decreases |times|
  {
    if |times| <= i then 0
    else AllowedSince(times[..|times| - 1], i) + if AllowedAt(times, |times| - 1) then 1 else 0
  }

  lemma {:induction false} WindowInvariant(times: seq<real>)
    requires Nondecreasing(times) && times != []
    ensures After(times).Some?
    ensures 1 <= After(times).value.count <= LOGIN_MAX
    ensures times[0] <= After(times).value.start <= times[|times| - 1]
  {
    var n := |times| - 1;
    if n > 0 {
      WindowInvariant(times[..n]);
      assert times[n - 1] <= times[n] && times[0] <= times[n];
    }
  }

  /** Attempts allowed within one window length all fall into the window in
      force at the end and the one before it; the attempt that opened a window
      begun before the interval lies outside the interval. */
  lemma {:induction false} TwoWindowsAtMost(times: seq<real>, i: nat)
    requires Nondecreasing(times) && i < |times|
    requires times[|times| - 1] - times[i] <= LOGIN_WINDOW
    ensures After(times).Some?
    ensures var w := After(times).value;
            && (w.start < times[i] ==> AllowedSince(times, i) + 1 <= w.count)
            && (w.start == times[i] ==> AllowedSince(times, i) <= w.count)
            && (w.start > times[i] ==> AllowedSince(times, i) <= w.count + (LOGIN_MAX - 1))
    decreases |times|
  {
    var n := |times| - 1;
    var init := times[..n];
    WindowInvariant(times);
    if i < n {
      TwoWindowsAtMost(init, i);
      WindowInvariant(init);
    } else {
      assert AllowedSince(init, i) == 0;
      if n > 0 {
        WindowInvariant(init);
      }
    }
  }

  /** At most 19 attempts within any five minutes, for every run. */
  lemma SlidingBound(times: seq<real>, i: nat, j: nat)
    requires Nondecreasing(times) && i <= j < |times| && times[j] - times[i] <= LOGIN_WINDOW
    ensures AllowedSince(times[..j + 1], i) <= 2 * LOGIN_MAX - 1
  {
    WindowInvariant(times[..j + 1]);
    TwoWindowsAtMost(times[..j + 1], i);
  }

  /** The documented ten per five minutes holds for an interval unless a window
      was reopened inside it. */
  lemma TenUnlessReopened(times: seq<real>, i: nat, j: nat)
    requires Nondecreasing(times) && i <= j < |times| && times[j] - times[i] <= LOGIN_WINDOW
    requires AllowedSince(times[..j + 1], i) > LOGIN_MAX
    ensures After(times[..j + 1]).Some? && After(times[..j + 1]).value.start > times[i]
  {
    WindowInvariant(times[..j + 1]);
    TwoWindowsAtMost(times[..j + 1], i);
  }

  /** The attempts from the i-th on are all refused. */
  ghost predicate AllRefused(times: seq<real>, i: nat) {
    forall k :: i <= k < |times| ==> !Admits(After(times[..k]), times[k])
  }

  /** Refused attempts change nothing: they neither count nor prolong the window. */
  lemma {:induction false} RefusalsAreFree(times: seq<real>, i: nat)
    requires i <= |times| && AllRefused(times, i)
    ensures After(times) == After(times[..i])
    decreases |times|
  {
    if i < |times| {
      var n := |times| - 1;
      assert forall k :: 0 <= k <= n ==> times[..n][..k] == times[..k];
      RefusalsAreFree(times[..n], i);
    } else {
      PrefixEnds(times);
    }
  }

  /** Once refused, a client stays refused exactly until the window is 300 seconds
      old, however often it tries. */
  lemma RefusedUntilWindowEnds(times: seq<real>, i: nat, t: real)
    requires 1 <= i < |times| && AllRefused(times, i)
    ensures After(times).Some? && (Admits(After(times), t) <==> t - After(times[..i]).value.start > 300.0)
  {
    assert !Admits(After(times[..i]), times[i]);
    RefusalsAreFree(times, i);
  }

  /** One attempt at 0 s, nine at 300 s, ten at 301 s. */
  ghost function Burst(n: nat): seq<real> {
    seq(n, k => if k == 0 then 0.0 else if k < 10 then 300.0 else 301.0)
  }

  lemma {:induction false} BurstState(n: nat)
    requires 1 <= n <= 20
    ensures After(Burst(n)) == Some(if n <= 10 then Window(n, 0.0) else Window(n - 10, 301.0))
    ensures AllowedSince(Burst(n), 1) == n - 1
  {
    assert Burst(n)[..n - 1] == Burst(n - 1);
    if n > 1 {
      BurstState(n - 1);
    } else {
      assert After(Burst(0)) == None;
    }
  }

  /** Nineteen is reached: all but the first attempt of the burst are within a
      single second and all are allowed. */
  lemma NineteenIsReached()
    ensures Nondecreasing(Burst(20)) && Burst(20)[19] - Burst(20)[1] <= 1.0
    ensures AllowedSince(Burst(20), 1) == 2 * LOGIN_MAX - 1
  {
    BurstState(20);
  }
}
