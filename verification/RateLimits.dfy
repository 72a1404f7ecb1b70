/** The sliding-window rate limiter (lib/gemini_shared.py, `RateLimiter`), on real time. */
module RateLimits {

  datatype Model = Model(name: string)

  const WINDOW: real := 60.0
  const BUFFER: real := 0.1

  // ---------- what a grant may look like ----------

  /** Drops the leading time stamps that are more than a window old. */
  function Purge(log: seq<real>, now: real): (r: seq<real>)
    ensures |r| <= |log|
  {
    if |log| > 0 && now - log[0] > WINDOW then Purge(log[1..], now) else log
  }

  /** Purging keeps the end of the log. */
  lemma {:induction false} PurgeKeepsEnd(log: seq<real>, now: real)
    ensures Purge(log, now) == log[|log| - |Purge(log, now)|..]
  {
    if |log| > 0 && now - log[0] > WINDOW {
      PurgeKeepsEnd(log[1..], now);
    }
  }

  /** A grant: when the log was purged, when the gap was checked, and the time stamp that was logged. */
  datatype Grant = Grant(now: real, check: real, stamp: real)

  /** The rule of both acquire methods, read on a log. */
  predicate Allowed(log: seq<real>, limit: int, gap: real, g: Grant) {
    var recent := Purge(log, g.now);
    g.now <= g.check <= g.stamp && (|recent| > 0 ==> g.check - recent[|recent| - 1] >= gap) && |recent| < limit
  }

  function Stamps(grants: seq<Grant>): (s: seq<real>)
    ensures |s| == |grants| && forall i :: 0 <= i < |s| ==> s[i] == grants[i].stamp
  {
    if |grants| == 0 then [] else Stamps(grants[..|grants| - 1]) + [grants[|grants| - 1].stamp]
  }

  /** All grants of one model in one run, on a clock that never runs backwards. */
  ghost predicate Granted(grants: seq<Grant>, limit: int, gap: real) {
    forall k :: 0 <= k < |grants| ==>
      Allowed(Stamps(grants[..k]), limit, gap, grants[k]) && (k > 0 ==> grants[k - 1].stamp <= grants[k].now)
  }

  ghost predicate Sorted(s: seq<real>) {
    forall i, j :: 0 <= i < j < |s| ==> s[i] <= s[j]
  }

  lemma {:induction false} GrantedIsSorted(grants: seq<Grant>, limit: int, gap: real, i: nat, j: nat)
    requires Granted(grants, limit, gap) && i <= j < |grants|
    ensures grants[i].stamp <= grants[j].stamp
  {
    if i < j {
      GrantedIsSorted(grants, limit, gap, i, j - 1);
      assert Allowed(Stamps(grants[..j]), limit, gap, grants[j]);
    }
  }

  /** What is purged is old, what is kept is recent. */
  lemma {:induction false} PurgeSplits(log: seq<real>, now: real)
    requires Sorted(log)
    ensures var k := |log| - |Purge(log, now)|;
            && (forall i :: 0 <= i < k ==> now - log[i] > WINDOW)
            && (forall i :: k <= i < |log| ==> now - log[i] <= WINDOW)
  {
    if |log| > 0 && now - log[0] > WINDOW {
      PurgeSplits(log[1..], now);
      var k := |log| - |Purge(log, now)|;
      forall i | 0 <= i < |log| ensures if i < k then now - log[i] > WINDOW else now - log[i] <= WINDOW {
        if i > 0 {
          assert log[1..][i - 1] == log[i];
        }
      }
    }
  }

  /** Forgetting does not matter: on a log that was purged earlier, purging gives what it gives on all grants ever. */
  lemma {:induction false} PurgeForgets(all: seq<real>, earlier: real, now: real)
    requires Sorted(all) && earlier <= now
    ensures Purge(Purge(all, earlier), now) == Purge(all, now)
  {
    if |all| > 0 && earlier - all[0] > WINDOW {
      PurgeForgets(all[1..], earlier, now);
    }
  }

  // ---------- whole runs ----------

  /** `limit` grants on, more than a window has passed. */
  lemma {:induction false} LimitApart(grants: seq<Grant>, limit: int, gap: real, i: nat, j: nat)
    requires Granted(grants, limit, gap) && j < |grants| && i + limit <= j && limit > 0
    ensures grants[j].stamp - grants[i].stamp > WINDOW
  {
    var before := Stamps(grants[..j]);
    assert Allowed(before, limit, gap, grants[j]);
    forall a, b | 0 <= a < b < |before| ensures before[a] <= before[b] {
      GrantedIsSorted(grants, limit, gap, a, b);
    }
    PurgeSplits(before, grants[j].now);
    PurgeKeepsEnd(before, grants[j].now);
    assert before[i] == grants[i].stamp;
  }

  /** The grants whose time stamp lies in the closed window that starts at `a`. */
  ghost function InWindow(grants: seq<Grant>, a: real): set<int> {
    set i | 0 <= i < |grants| && a <= grants[i].stamp <= a + 60.0
  }

  lemma {:induction false} Stretch(s: set<int>, lo: int, n: nat)
    requires forall i :: i in s ==> lo <= i < lo + n
    ensures |s| <= n
  {
    if n > 0 {
      var rest := s - {lo + n - 1};
      Stretch(rest, lo, n - 1);
      assert s <= rest + {lo + n - 1};
    } else {
      assert forall i :: i !in s;
      Empty(s);
    }
  }

  lemma Empty<T>(s: set<T>)
    requires forall x :: x !in s
    ensures s == {}
  {
  }

  lemma {:induction false} LowerBound(s: set<int>, n: nat) returns (lo: int)
    requires forall i :: i in s ==> 0 <= i < n
    ensures forall i :: i in s ==> lo <= i
    ensures lo in s || forall i :: i !in s
  {
    lo := 0;
    while lo < n && lo !in s
      invariant 0 <= lo <= n && forall i :: i in s ==> lo <= i
    {
      lo := lo + 1;
    }
  }

  /** Rate limit over whole runs: every closed window of 60 seconds holds at most `limit` grants of a model. */
  lemma {:induction false} WindowHolds(grants: seq<Grant>, limit: int, gap: real, a: real)
    requires Granted(grants, limit, gap) && limit > 0
    ensures |InWindow(grants, a)| <= limit
  {
    var s := InWindow(grants, a);
    var lo := LowerBound(s, |grants|);
    forall i | i in s ensures lo <= i < lo + limit {
      if i >= lo + limit {
        LimitApart(grants, limit, gap, lo, i);
      }
    }
    Stretch(s, lo, limit);
  }

  /** Consecutive grants are apart by the requested gap, or by more than a window. */
  lemma {:induction false} GapOrWindow(grants: seq<Grant>, limit: int, gap: real, i: nat)
    requires Granted(grants, limit, gap) && i + 1 < |grants|
    ensures var d := grants[i + 1].stamp - grants[i].stamp; d >= gap || d > WINDOW
  {
    var before := Stamps(grants[..i + 1]);
    assert Allowed(before, limit, gap, grants[i + 1]);
    forall a, b | 0 <= a < b < |before| ensures before[a] <= before[b] {
      GrantedIsSorted(grants, limit, gap, a, b);
    }
    PurgeSplits(before, grants[i + 1].now);
    PurgeKeepsEnd(before, grants[i + 1].now);
    var recent := Purge(before, grants[i + 1].now);
    assert |recent| > 0 ==> recent[|recent| - 1] == before[i];
  }

  ghost predicate KeepsGap(grants: seq<Grant>, gap: real) {
    forall i :: 0 <= i < |grants| - 1 ==> grants[i + 1].stamp - grants[i].stamp >= gap
  }

  /** The minimum gap between consecutive grants holds in all runs if and only if it is at most a window: a longer
      one is forgotten with the log. */
  lemma {:induction false} GapHoldsUpToWindow(limit: int, gap: real)
    requires limit > 0
    ensures (forall grants: seq<Grant> :: Granted(grants, limit, gap) ==> KeepsGap(grants, gap)) <==> gap <= 60.0
  {
    if gap <= WINDOW {
      forall grants: seq<Grant> | Granted(grants, limit, gap) ensures KeepsGap(grants, gap) {
        forall i | 0 <= i < |grants| - 1 ensures grants[i + 1].stamp - grants[i].stamp >= gap {
          GapOrWindow(grants, limit, gap, i);
        }
      }
    } else {
      var t := (WINDOW + gap) / 2.0;
      var grants := [Grant(0.0, 0.0, 0.0), Grant(t, t, t)];
      assert grants[..0] == [] && grants[..1] == [grants[0]];
      assert Stamps(grants[..1]) == [0.0];
      assert Purge([0.0], t) == [] by {
        assert Purge([0.0][1..], t) == [];
      }
      assert Granted(grants, limit, gap);
      assert grants[0 + 1].stamp - grants[0].stamp < gap;
    }
  }

  /** The rule, read off all grants ever made: a call gets its grant if and only if fewer than `limit` of them lie
      within the last window, and the last one is at least the gap, or more than a window, ago. */
  lemma {:induction false} AllowedMeans(grants: seq<Grant>, limit: int, gap: real, t: real)
    requires Granted(grants, limit, gap) && (|grants| > 0 ==> grants[|grants| - 1].stamp <= t)
    ensures Allowed(Stamps(grants), limit, gap, Grant(t, t, t)) <==>
              && |InWindow(grants, t - 60.0)| < limit
              && (|grants| > 0 ==> var d := t - grants[|grants| - 1].stamp; d >= gap || d > 60.0)
  {
    hide Granted, Purge;
    var all := Stamps(grants);
    assert Sorted(all) by {
      forall a, b | 0 <= a < b < |all| ensures all[a] <= all[b] {
        GrantedIsSorted(grants, limit, gap, a, b);
      }
    }
    PurgeSplits(all, t);
    PurgeKeepsEnd(all, t);
    RecentAreInWindow(grants, limit, gap, t);
  }

  lemma {:induction false} RecentAreInWindow(grants: seq<Grant>, limit: int, gap: real, t: real)
    requires Granted(grants, limit, gap) && (|grants| > 0 ==> grants[|grants| - 1].stamp <= t)
    requires Sorted(Stamps(grants))
    ensures |InWindow(grants, t - 60.0)| == |Purge(Stamps(grants), t)|
  {
    hide Granted, Purge;
    var all := Stamps(grants);
    var k, recent := |grants| - |Purge(all, t)|, InWindow(grants, t - 60.0);
    PurgeSplits(all, t);
    forall i | 0 <= i < |grants| ensures grants[i].stamp <= t && grants[i].stamp == all[i] {
      GrantedIsSorted(grants, limit, gap, i, |grants| - 1);
    }
    assert forall i :: i in recent <==> k <= i < |grants|;
    StretchSize(recent, k, |grants|);
  }

  lemma {:induction false} StretchSize(s: set<int>, lo: int, hi: int)
    requires lo <= hi && forall i :: i in s <==> lo <= i < hi
    ensures |s| == hi - lo
    decreases hi - lo
  {
    if lo < hi {
      var rest := s - {hi - 1};
      assert forall i :: i in rest <==> lo <= i < hi - 1;
      StretchSize(rest, lo, hi - 1);
    } else {
      assert forall i :: i !in s;
      Empty(s);
    }
  }

  // ---------- the two methods ----------

  class Clock {
    var time: real

    constructor (start: real)
      ensures time == start
    {
      time := start;
    }

    /** Any amount of time goes by. */
    method Pass()
      modifies this
      ensures time >= old(time)
    {
      var passed: real := *;
      if passed >= 0.0 {
        time := time + passed;
      }
    }

    method Now() returns (t: real)
      modifies this
      ensures old(time) <= t == time
    {
      Pass();
      t := time;
    }

    method Sleep(d: real)
      requires d >= 0.0
      modifies this
      ensures time >= old(time) + d
    {
      time := time + d;
      Pass();
    }
  }

  // ---------- the log of one model ----------

  /** A log is what a purge at `earlier` has left of all grants of its model. */
  ghost predicate LogOk(log: seq<real>, grants: seq<Grant>, limit: int, gap: real, earlier: real, now: real) {
    && Granted(grants, limit, gap) && |log| <= limit
    && (|grants| > 0 ==> grants[|grants| - 1].stamp <= now)
    && earlier <= now && log == Purge(Stamps(grants), earlier)
  }

  lemma {:induction false} StampsAreSorted(grants: seq<Grant>, limit: int, gap: real)
    requires Granted(grants, limit, gap)
    ensures Sorted(Stamps(grants))
  {
    forall a, b | 0 <= a < b < |grants| ensures grants[a].stamp <= grants[b].stamp {
      GrantedIsSorted(grants, limit, gap, a, b);
    }
  }

  lemma {:induction false} PurgeKeepsNew(log: seq<real>, x: real, now: real)
    requires now <= x
    ensures Purge(log + [x], now) == Purge(log, now) + [x]
  {
    if |log| > 0 {
      assert (log + [x])[1..] == log[1..] + [x];
      if now - log[0] > WINDOW {
        PurgeKeepsNew(log[1..], x, now);
      }
    }
  }

  /** Purging the log is purging the history of all grants. */
  lemma {:induction false} PurgedLogIsOk(log: seq<real>, grants: seq<Grant>, limit: int, gap: real, earlier: real,
                                         now: real)
    requires LogOk(log, grants, limit, gap, earlier, now)
    ensures LogOk(Purge(log, now), grants, limit, gap, now, now) && Purge(log, now) == Purge(Stamps(grants), now)
  {
    hide Purge, Granted, Stamps;
    StampsAreSorted(grants, limit, gap);
    PurgeForgets(Stamps(grants), earlier, now);
  }

  lemma {:induction false} GrantedExtends(grants: seq<Grant>, limit: int, gap: real, g: Grant)
    requires Granted(grants, limit, gap) && Allowed(Stamps(grants), limit, gap, g)
    requires |grants| > 0 ==> grants[|grants| - 1].stamp <= g.now
    ensures Granted(grants + [g], limit, gap) && Stamps(grants + [g]) == Stamps(grants) + [g.stamp]
  {
    hide Allowed, Purge;
    var all := grants + [g];
    assert all[..|grants|] == grants;
    forall k | 0 <= k < |all|
      ensures Allowed(Stamps(all[..k]), limit, gap, all[k]) && (k > 0 ==> all[k - 1].stamp <= all[k].now)
    {
      if k < |grants| {
        assert all[..k] == grants[..k];
      }
    }
  }

  /** Logging an allowed grant keeps the log in order. */
  lemma {:induction false} LoggedIsOk(log: seq<real>, grants: seq<Grant>, limit: int, gap: real, g: Grant)
    requires LogOk(log, grants, limit, gap, g.now, g.now) && Allowed(Stamps(grants), limit, gap, g)
    ensures LogOk(log + [g.stamp], grants + [g], limit, gap, g.now, g.stamp)
  {
    hide Purge, Granted, Stamps;
    GrantedExtends(grants, limit, gap, g);
    PurgeKeepsNew(Stamps(grants), g.stamp, g.now);
  }

  /** On a log that was just purged, a grant is allowed if the gap has passed and there is room. */
  lemma {:induction false} AllowedOnLog(log: seq<real>, grants: seq<Grant>, limit: int, gap: real, g: Grant)
    requires log == Purge(Stamps(grants), g.now) && g.now <= g.check <= g.stamp
    ensures Allowed(Stamps(grants), limit, gap, g) <==>
              (|log| > 0 ==> g.check - log[|log| - 1] >= gap) && |log| < limit
  {
  }

  lemma {:induction false} PurgeShrinks(log: seq<real>, earlier: real, now: real)
    requires earlier <= now
    ensures |Purge(log, now)| <= |Purge(log, earlier)|
  {
    if |log| > 0 && now - log[0] > WINDOW {
      PurgeShrinks(log[1..], earlier, now);
    }
  }

  lemma {:induction false} PurgeAgain(log: seq<real>, now: real)
    ensures Purge(Purge(log, now), now) == Purge(log, now)
  {
    if |log| > 0 && now - log[0] > WINDOW {
      PurgeAgain(log[1..], now);
    }
  }

  lemma LastIsKept(log: seq<real>, now: real)
    requires |Purge(log, now)| > 0
    ensures Purge(log, now)[|Purge(log, now)| - 1] == log[|log| - 1]
  {
    PurgeKeepsEnd(log, now);
  }

  lemma {:induction false} PurgeDropsFirst(log: seq<real>, now: real)
    requires |log| > 0 && now - log[0] > WINDOW
    ensures |Purge(log, now)| < |log|
  {
  }

  /** A caller that comes back too early, while the gap or the oldest grant of a full window still counts, is not. */
  lemma {:induction false} WaitingIsNeeded(log: seq<real>, grants: seq<Grant>, limit: int, gap: real, now: real,
                                           later: real)
    requires LogOk(log, grants, limit, gap, now, now) && now <= later && gap <= WINDOW && |log| > 0
    requires later - log[|log| - 1] < gap || (|log| >= limit && later - log[0] <= WINDOW)
    ensures !Allowed(Stamps(grants), limit, gap, Grant(later, later, later))
  {
    hide Granted, Stamps;
    StampsAreSorted(grants, limit, gap);
    PurgeForgets(Stamps(grants), now, later);
    PurgeKeepsEnd(Stamps(grants), now);
    PurgeSplits(log, later);
    PurgeKeepsEnd(log, later);
  }

  /** A caller that has waited long enough, with no grant in between, is let through. */
  lemma {:induction false} WaitingSuffices(log: seq<real>, grants: seq<Grant>, limit: int, gap: real, now: real,
                                           later: real)
    requires LogOk(log, grants, limit, gap, now, now) && now <= later && limit > 0
    requires |log| > 0 ==> later - log[|log| - 1] >= gap
    requires |log| >= limit ==> later - log[0] > WINDOW
    ensures Allowed(Stamps(grants), limit, gap, Grant(later, later, later))
  {
    hide Purge, Granted, Stamps, Allowed;
    StampsAreSorted(grants, limit, gap);
    PurgeForgets(Stamps(grants), now, later);
    PurgeKeepsEnd(log, later);
    if |log| >= limit {
      PurgeDropsFirst(log, later);
    }
    AllowedOnLog(Purge(log, later), grants, limit, gap, Grant(later, later, later));
  }

  // ---------- the limiter ----------

  class RateLimiter {
    const limits: map<Model, int>
    const requestGap: real
    const clock: Clock
    var logs: map<Model, seq<real>>
    ghost var grants: map<Model, seq<Grant>>
    ghost var purged: map<Model, real>

    constructor (limits: map<Model, int>, requestGap: real, clock: Clock)
      ensures this.limits == limits && this.requestGap == requestGap && this.clock == clock
      ensures Valid() && forall m :: GrantsOf(m) == []
    {
      this.limits, this.requestGap, this.clock := limits, requestGap, clock;
      logs, grants, purged := map[], map[], map m | m in limits :: clock.time;
    }

    ghost function GrantsOf(m: Model): seq<Grant>
      reads this
    {
      if m in grants then grants[m] else []
    }

    function LogOf(m: Model): seq<real>
      reads this
    {
      if m in logs then logs[m] else []
    }

    predicate Limited(m: Model) {
      m in limits && limits[m] > 0
    }

    ghost predicate LogValid(m: Model, now: real)
      requires Limited(m)
      reads this
    {
      m in purged && LogOk(LogOf(m), GrantsOf(m), limits[m], requestGap, purged[m], now)
    }

    /** Every model's log is what is left of all its grants. */
    ghost predicate Valid()
      reads this, clock
    {
      forall m :: Limited(m) ==> LogValid(m, clock.time)
    }

    lemma StillValid(before: real)
      requires before <= clock.time
      requires forall m :: Limited(m) ==> LogValid(m, before)
      ensures Valid()
    {
    }

    /** Forgets, from the front, the stamps that have left the window. */
    method PopOld(m: Model, now: real) returns (log: seq<real>)
      requires Valid() && Limited(m) && clock.time == now
      modifies this`logs, this`purged
      ensures Valid() && LogOf(m) == log == Purge(old(LogOf(m)), now)
      ensures LogOk(log, GrantsOf(m), limits[m], requestGap, now, now)
      ensures forall k :: k != m ==> LogOf(k) == old(LogOf(k))
    {
      hide LogOk, Granted, Stamps;
      log := LogOf(m);
      ghost var before := log;
      while |log| > 0 && now - log[0] > WINDOW
        invariant Purge(log, now) == Purge(before, now)
      {
        log := log[1..];
      }
      assert LogValid(m, now);
      PurgedLogIsOk(before, GrantsOf(m), limits[m], requestGap, purged[m], now);
      logs := logs[m := log];
      purged := purged[m := now];
    }

    /** Logs a grant. */
    method Append(m: Model, ghost g: Grant)
      requires Valid() && Limited(m) && clock.time == g.stamp
      requires LogOk(LogOf(m), GrantsOf(m), limits[m], requestGap, g.now, g.now)
      requires Allowed(Stamps(GrantsOf(m)), limits[m], requestGap, g)
      modifies this
      ensures Valid() && GrantsOf(m) == old(GrantsOf(m)) + [g]
      ensures forall k :: k != m ==> LogOf(k) == old(LogOf(k)) && GrantsOf(k) == old(GrantsOf(k))
    {
      hide LogOk, Allowed, Stamps;
      LoggedIsOk(LogOf(m), GrantsOf(m), limits[m], requestGap, g);
      logs := logs[m := LogOf(m) + [clock.time]];
      grants := grants[m := GrantsOf(m) + [g]];
      purged := purged[m := g.now];
    }

    /** One attempt of the waiting coroutine, made under the lock. Either it gets its grant now, or it is told how
        long to wait, and waiting that long is enough unless somebody else is granted in between. */
    method AttemptAsync(m: Model) returns (granted: bool, wait: real)
      requires Valid()
      modifies this, clock
      ensures Valid() && clock.time >= old(clock.time)
      ensures !Limited(m) ==> granted && logs == old(logs) && grants == old(grants)
      ensures forall k :: k != m ==> GrantsOf(k) == old(GrantsOf(k))
      ensures Limited(m) ==>
                (var now := Grant(clock.time, clock.time, clock.time);
                 && (granted <==> Allowed(Stamps(old(GrantsOf(m))), limits[m], requestGap, now))
                 && GrantsOf(m) == old(GrantsOf(m)) + if granted then [now] else [])
      ensures !granted ==> Limited(m) && wait > 0.0
      ensures !granted ==>
                forall t :: t >= clock.time + wait ==>
                  Allowed(Stamps(GrantsOf(m)), limits[m], requestGap, Grant(t, t, t))
      // Nor is it longer than needed, apart from the buffer, unless the gap is forgotten with the log.
      ensures !granted && requestGap <= 60.0 ==>
                forall t :: clock.time <= t < clock.time + wait - 0.1 ==>
                  !Allowed(Stamps(GrantsOf(m)), limits[m], requestGap, Grant(t, t, t))
    {
      hide LogValid, Purge, Allowed, Stamps;
      if m !in limits || limits[m] <= 0 {
        return true, 0.0;
      }
      var limit := limits[m];
      ghost var before := clock.time;
      var now := clock.Now();
      StillValid(before);
      var log := PopOld(m, now);
      wait := 0.0;
      if |log| > 0 && now - log[|log| - 1] < requestGap {
        wait := requestGap - (now - log[|log| - 1]);
      }
      if |log| >= limit {
        var expiry := WINDOW - (now - log[0]) + BUFFER;
        wait := if wait >= expiry then wait else expiry;
      }
      AllowedOnLog(log, GrantsOf(m), limit, requestGap, Grant(now, now, now));
      if wait == 0.0 && |log| < limit {
        Append(m, Grant(now, now, now));
        return true, 0.0;
      }
      forall t | t >= now + wait ensures Allowed(Stamps(GrantsOf(m)), limit, requestGap, Grant(t, t, t)) {
        WaitingSuffices(log, GrantsOf(m), limit, requestGap, now, t);
      }
      if requestGap <= WINDOW {
        forall t | now <= t < now + wait - BUFFER
          ensures !Allowed(Stamps(GrantsOf(m)), limit, requestGap, Grant(t, t, t))
        {
          WaitingIsNeeded(log, GrantsOf(m), limit, requestGap, now, t);
        }
      }
      return false, wait;
    }

    /** What other callers do while a coroutine waits without the lock: some acquire grants of their own. */
    method Interfere(calls: seq<Model>, ghost m: Model)
      requires Valid()
      modifies this, clock
      ensures Valid() && clock.time >= old(clock.time)
      ensures old(GrantsOf(m)) <= GrantsOf(m)
      ensures |GrantsOf(m)| <= |old(GrantsOf(m))| + multiset(calls)[m]
    {
      hide Valid;
      for i := 0 to |calls|
        invariant Valid() && clock.time >= old(clock.time)
        invariant old(GrantsOf(m)) <= GrantsOf(m)
        invariant |GrantsOf(m)| <= |old(GrantsOf(m))| + multiset(calls[..i])[m]
      {
        assert calls[..i + 1] == calls[..i] + [calls[i]];
        Acquire(calls[i]);
      }
      assert calls[..|calls|] == calls;
    }

    /** The waiting coroutine: attempt, give the lock back, sleep as long as told, attempt again. `rivals` lists who
        acquires what during each wait. The loop ends with exactly one grant of its own, at the latest in the second
        attempt after the last interference, and that grant is allowed after everything granted meanwhile. */
    method AcquireAsync(m: Model, rivals: seq<seq<Model>>) returns (attempts: nat)
      requires Valid()
      modifies this, clock
      ensures Valid() && clock.time >= old(clock.time)
      ensures 1 <= attempts <= |rivals| + 2
      ensures !Limited(m) ==> attempts == 1 && logs == old(logs) && grants == old(grants)
      ensures Limited(m) ==>
                OneGrant(old(GrantsOf(m)), GrantsOf(m), CallsTo(rivals, m), limits[m], requestGap, clock.time)
    {
      hide Valid, Allowed, Stamps, CallsTo, OneGrant, GrantsOf, LogOf;
      attempts := 0;
      ghost var first := GrantsOf(m);
      ghost var mid: seq<Grant> := [];
      while true
        invariant Valid() && clock.time >= old(clock.time)
        invariant 0 <= attempts <= |rivals| + 1
        invariant attempts > 0 ==> Limited(m)
        invariant attempts == 0 ==> logs == old(logs) && grants == old(grants)
        invariant GrantsOf(m) == first + mid
        invariant |mid| <= CallsTo(rivals[..Least(attempts, |rivals|)], m)
        invariant attempts == |rivals| + 1 ==>
          forall t :: t >= clock.time ==> Allowed(Stamps(first + mid), limits[m], requestGap, Grant(t, t, t))
        decreases |rivals| + 2 - attempts
      {
        var granted, wait := AttemptAsync(m);
        attempts := attempts + 1;
        if granted {
          ghost var g := Grant(clock.time, clock.time, clock.time);
          MoreCalls(rivals, Least(attempts - 1, |rivals|), m);
          if Limited(m) {
            Granting(first, mid, g, GrantsOf(m), CallsTo(rivals, m), limits[m], requestGap);
          }
          return;
        }
        assert GrantsOf(m) == first + mid;
        ghost var now := clock.time;
        assert forall t :: t >= now + wait ==> Allowed(Stamps(first + mid), limits[m], requestGap, Grant(t, t, t));
        Rest(wait, if attempts <= |rivals| then rivals[attempts - 1] else [], m);
        if attempts <= |rivals| {
          mid := GrantsOf(m)[|first|..];
          LastCalls(rivals, attempts, m);
        }
      }
    }

    /** A wait without the lock. */
    method Rest(wait: real, calls: seq<Model>, ghost m: Model)
      requires Valid() && wait >= 0.0
      modifies this, clock
      ensures Valid() && clock.time >= old(clock.time) + wait
      ensures old(GrantsOf(m)) <= GrantsOf(m)
      ensures |GrantsOf(m)| <= |old(GrantsOf(m))| + multiset(calls)[m]
    {
      hide LogValid;
      ghost var before := clock.time;
      clock.Sleep(wait);
      StillValid(before);
      Interfere(calls, m);
    }

    /** Blocks, under the lock, until the grant is made. The loop ends: the gap is waited for once, and every wait for
        room empties the log a little further. */
    method Acquire(m: Model)
      requires Valid()
      modifies this, clock
      ensures Valid() && clock.time >= old(clock.time)
      ensures !Limited(m) ==> clock.time == old(clock.time) && logs == old(logs) && grants == old(grants)
      ensures forall k :: k != m ==> GrantsOf(k) == old(GrantsOf(k))
      ensures Limited(m) ==>
                exists g :: GrantsOf(m) == old(GrantsOf(m)) + [g]
                    && Allowed(Stamps(old(GrantsOf(m))), limits[m], requestGap, g)
                            && old(clock.time) <= g.now && g.stamp == clock.time
    {
      hide LogValid, Purge, Granted, Allowed, Stamps;
      if m !in limits || limits[m] <= 0 {
        return;
      }
      var limit := limits[m];
      while true
        invariant Valid() && clock.time >= old(clock.time)
        invariant GrantsOf(m) == old(GrantsOf(m))
        invariant forall k :: k != m ==> GrantsOf(k) == old(GrantsOf(k))
        decreases |Purge(LogOf(m), clock.time)|, TooSoon(LogOf(m), requestGap, clock.time)
      {
        ghost var before := clock.time;
        var now := clock.Now();
        StillValid(before);
        ghost var older := LogOf(m);
        var log := PopOld(m, now);
        PurgeShrinks(older, before, now);
        PurgeAgain(older, now);
        var check := now;
        if |log| > 0 {
          check := clock.Now();
          StillValid(now);
          var gap := check - log[|log| - 1];
          if gap < requestGap {
            clock.Sleep(requestGap - gap);
            StillValid(check);
            LastIsKept(older, now);
            PurgeShrinks(log, now, clock.time);
            continue;
          }
        }
        if |log| < limit {
          var stamp := clock.Now();
          StillValid(check);
          AllowedOnLog(log, GrantsOf(m), limit, requestGap, Grant(now, check, stamp));
          Append(m, Grant(now, check, stamp));
          return;
        }
        var wait := WINDOW - (now - log[0]) + BUFFER;
        if wait > 0.0 {
          clock.Sleep(wait);
          StillValid(check);
        }
        PurgeDropsFirst(log, clock.time);
      }
    }
  }

  /** How many of the calls made during some waits are for one model. */
  ghost function CallsTo(rivals: seq<seq<Model>>, m: Model): nat {
    if |rivals| == 0 then 0 else CallsTo(rivals[..|rivals| - 1], m) + multiset(rivals[|rivals| - 1])[m]
  }

  /** One grant at `time` comes after at most `others` other new ones, and is allowed after them. */
  ghost predicate OneGrant(before: seq<Grant>, after: seq<Grant>, others: nat, limit: int, gap: real, time: real) {
    exists mid: seq<Grant>, g ::
      after == before + mid + [g] && |mid| <= others && Allowed(Stamps(before + mid), limit, gap, g) && g.stamp == time
  }

  lemma Granting(before: seq<Grant>, mid: seq<Grant>, g: Grant, after: seq<Grant>, others: nat, limit: int, gap: real)
    requires after == before + mid + [g] && |mid| <= others && Allowed(Stamps(before + mid), limit, gap, g)
    ensures OneGrant(before, after, others, limit, gap, g.stamp)
  {
  }

  function Least(a: nat, b: nat): nat {
    if a < b then a else b
  }

  lemma LastCalls(rivals: seq<seq<Model>>, n: nat, m: Model)
    requires 0 < n <= |rivals|
    ensures CallsTo(rivals[..n], m) == CallsTo(rivals[..n - 1], m) + multiset(rivals[n - 1])[m]
  {
    assert rivals[..n][..n - 1] == rivals[..n - 1];
  }

  lemma {:induction false} MoreCalls(rivals: seq<seq<Model>>, n: nat, m: Model)
    requires n <= |rivals|
    ensures CallsTo(rivals[..n], m) <= CallsTo(rivals, m)
  {
    if n == |rivals| {
      assert rivals[..n] == rivals;
    } else {
      var front := rivals[..|rivals| - 1];
      MoreCalls(front, n, m);
      assert front[..n] == rivals[..n];
    }
  }

  /** Whether the newest entry is still too recent. */
  ghost function TooSoon(log: seq<real>, gap: real, now: real): nat {
    if |log| > 0 && now - log[|log| - 1] < gap then 1 else 0
  }
}
