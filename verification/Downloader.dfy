/**
 The attachment downloader's retry bookkeeping (internal/attachment/downloader.go).
 Times are nanoseconds; whether a fetch succeeds is the environment's choice.
 */
module Downloader {
  const SECOND := 1_000_000_000
  const MAX_BACKOFF := 120 * SECOND
  const HOUR := 3600 * SECOND

  datatype FailState = FailState(attempts: nat, lastFailedAt: int)

  type Failures = map<nat, FailState>

  /** 1 << k */
  function Shift(k: nat): nat {
    if k == 0 then 1 else 2 * Shift(k - 1)
  }

  /** The attempt count is bounded before the shift. */
  function BackoffFor(attempts: int): int {
    if attempts <= 0 then 0
    else if attempts >= 7 then MAX_BACKOFF
    else
      var base := SECOND * Shift(attempts);
      if base > MAX_BACKOFF then MAX_BACKOFF else base
  }

  /** 2s, 4s, 8s, 16s, 32s, 64s, then 120s for ever. */
  lemma BackoffSchedule(attempts: int)
    ensures 1 <= attempts < 7 ==> BackoffFor(attempts) == SECOND * Shift(attempts)
    ensures attempts >= 7 ==> BackoffFor(attempts) == 120 * SECOND
    ensures attempts >= 1 ==> 2 * SECOND <= BackoffFor(attempts) <= MAX_BACKOFF
    ensures BackoffFor(attempts) <= BackoffFor(attempts + 1)
  {
    Shifts();
  }

  lemma Shifts()
    ensures Shift(1) == 2 && Shift(2) == 4 && Shift(3) == 8 && Shift(4) == 16 && Shift(5) == 32 && Shift(6) == 64
            && Shift(7) == 128
  {
    assert Shift(3) == 8;
    assert Shift(5) == 32;
  }

  // ---------------------------------------------------------------- one row, as a function

  predicate InBackoff(failed: Failures, id: nat, now: int) {
    id in failed && now < failed[id].lastFailedAt + BackoffFor(failed[id].attempts)
  }

  /**
   One row met by one cycle: `now` is the clock the cycle read once at its start,
   `started` when this row's turn came, `ok` how its fetch would end.
   */
  datatype Visit = Visit(now: int, started: int, id: nat, ok: bool)

  function Failed(failed: Failures, id: nat, now: int): Failures {
    failed[id := FailState((if id in failed then failed[id].attempts else 0) + 1, now)]
  }

  function After(failed: Failures, v: Visit): Failures {
    if InBackoff(failed, v.id, v.now) then failed
    else if v.ok then failed - {v.id}
    else Failed(failed, v.id, v.now)
  }

  function AfterAll(failed: Failures, vs: seq<Visit>): Failures {
    if vs == [] then failed else After(AfterAll(failed, vs[..|vs| - 1]), vs[|vs| - 1])
  }

  /** The visits that fetch the row rather than skip it. */
  function Fetches(failed: Failures, vs: seq<Visit>, id: nat): seq<Visit> {
    if vs == [] then []
    else
      var (before, v) := (vs[..|vs| - 1], vs[|vs| - 1]);
      Fetches(failed, before, id) + if v.id == id && !InBackoff(AfterAll(failed, before), id, v.now) then [v] else []
  }

  // ---------------------------------------------------------------- the worker as code

  class Worker {
    var failed: Failures

    constructor ()
      ensures failed == map[]
    {
      failed := map[];
    }

    method RecordFailure(id: nat, now: int)
      modifies this
      ensures failed == Failed(old(failed), id, now)
    {
      var st := if id in failed then failed[id] else FailState(0, 0);
      failed := failed[id := FailState(st.attempts + 1, now)];
    }

    method ClearFailure(id: nat)
      modifies this
      ensures failed == old(failed) - {id}
    {
      failed := failed - {id};
    }

    /** One cycle over the pending rows: skip, or fetch and book the outcome. */
    method ProcessOnce(now: int, pending: seq<nat>, starts: seq<int>, ok: seq<bool>)
      requires |starts| == |pending| && |ok| == |pending|
      modifies this
      ensures failed == AfterAll(old(failed), VisitsOf(now, pending, starts, ok))
    {
      ghost var visits := VisitsOf(now, pending, starts, ok);
      var i := 0;
      while i < |pending|
        invariant 0 <= i <= |pending|
        invariant failed == AfterAll(old(failed), visits[..i])
      {
        assert visits[..i + 1][..i] == visits[..i];
        var a := pending[i];
        if !InBackoff(failed, a, now) {
          if ok[i] {
            ClearFailure(a);
          } else {
            RecordFailure(a, now);
          }
        }
        i := i + 1;
      }
      assert visits[..i] == visits;
    }
  }

  function VisitsOf(now: int, pending: seq<nat>, starts: seq<int>, ok: seq<bool>): seq<Visit>
    requires |starts| == |pending| && |ok| == |pending|
  {
    seq(|pending|, i requires 0 <= i < |pending| => Visit(now, starts[i], pending[i], ok[i]))
  }

  // ---------------------------------------------------------------- the current streak of failures

  /** The failed fetches since the last success. */
  function Streak(fetches: seq<Visit>): seq<Visit> {
    if fetches == [] || fetches[|fetches| - 1].ok then []
    else Streak(fetches[..|fetches| - 1]) + [fetches[|fetches| - 1]]
  }

  /** Each failure is at least its predecessor's backoff later. */
  ghost predicate Spaced(s: seq<Visit>) {
    forall i | 1 <= i < |s| :: s[i].now >= s[i - 1].now + BackoffFor(i)
  }

  /** The map's entry for a row is the length and the end of its streak. */
  ghost predicate Tracks(failed: Failures, id: nat, s: seq<Visit>) {
    && (id in failed <==> s != [])
    && (s != [] ==> failed[id] == FailState(|s|, s[|s| - 1].now))
    && Spaced(s)
  }

  lemma FetchTracks(failed: Failures, v: Visit, s: seq<Visit>)
    requires Tracks(failed, v.id, s) && !InBackoff(failed, v.id, v.now)
    ensures Tracks(After(failed, v), v.id, if v.ok then [] else s + [v])
  {
  }

  lemma StreakGrows(f: seq<Visit>, v: Visit)
    ensures Streak(f + [v]) == if v.ok then [] else Streak(f) + [v]
  {
    assert (f + [v])[..|f|] == f;
  }

  /** What the map knows about a row after a run of one process. */
  lemma {:induction false} MapTracksStreak(vs: seq<Visit>, id: nat)
    ensures Tracks(AfterAll(map[], vs), id, Streak(Fetches(map[], vs, id)))
  {
    if vs != [] {
      var (before, v) := (vs[..|vs| - 1], vs[|vs| - 1]);
      var f := Fetches(map[], before, id);
      MapTracksStreak(before, id);
      if v.id == id && !InBackoff(AfterAll(map[], before), id, v.now) {
        FetchTracks(AfterAll(map[], before), v, Streak(f));
        StreakGrows(f, v);
      } else {
        assert f + [] == f;
      }
    }
  }

  /** A row is fetched exactly if it has no failures to wait for or the last one's backoff is over. */
  lemma FetchedIff(vs: seq<Visit>, v: Visit, id: nat)
    ensures var f := Fetches(map[], vs, id);
            var s := Streak(f);
            Fetches(map[], vs + [v], id) ==
              if v.id == id && (s == [] || v.now >= s[|s| - 1].now + BackoffFor(|s|)) then f + [v] else f
  {
    assert (vs + [v])[..|vs|] == vs;
    MapTracksStreak(vs, id);
  }

  // ---------------------------------------------------------------- the retry rate

  /** The least distance from the first failure of a streak to the k-th. */
  function LeastDelay(k: nat): int
    requires k >= 1
  {
    if k <= 7 then (Shift(k) - 2) * SECOND else (126 + 120 * (k - 7)) * SECOND
  }

  lemma LeastDelayStep(k: nat)
    requires k >= 1
    ensures LeastDelay(k + 1) == LeastDelay(k) + BackoffFor(k)
  {
    Shifts();
    if k < 7 {
      assert Shift(k + 1) == 2 * Shift(k);
      assert BackoffFor(k) == SECOND * Shift(k) by {
        BackoffSchedule(k);
      }
    }
  }

  lemma {:induction false} SpacedDelay(s: seq<Visit>, k: nat)
    requires Spaced(s) && 1 <= k <= |s|
    ensures s[k - 1].now - s[0].now >= LeastDelay(k)
  {
    if k == 1 {
      assert LeastDelay(1) == 0;
    } else {
      SpacedDelay(s, k - 1);
      LeastDelayStep(k - 1);
    }
  }

  /** The k-th consecutive failed fetch comes at least 2^k - 2 seconds, or 126 + 120(k - 7), after the first. */
  lemma RetriesBackOff(vs: seq<Visit>, id: nat, k: nat)
    requires 1 <= k <= |Streak(Fetches(map[], vs, id))|
    ensures var s := Streak(Fetches(map[], vs, id));
            && (k <= 7 ==> s[k - 1].now - s[0].now >= (Shift(k) - 2) * SECOND)
            && (k >= 7 ==> s[k - 1].now - s[0].now >= (126 + 120 * (k - 7)) * SECOND)
  {
    MapTracksStreak(vs, id);
    SpacedDelay(Streak(Fetches(map[], vs, id)), k);
    Shifts();
  }

  lemma {:induction false} LateGap(s: seq<Visit>, i: nat, j: nat)
    requires Spaced(s) && 6 <= i <= j < |s|
    ensures s[j].now - s[i].now >= 120 * SECOND * (j - i)
  {
    if i < j {
      LateGap(s, i, j - 1);
      BackoffSchedule(j);
    }
  }

  lemma ThirtyInSpaced(s: seq<Visit>, i: nat, j: nat, from: int)
    requires Spaced(s) && 6 <= i <= j < |s| && from <= s[i].now && s[j].now < from + HOUR
    ensures j - i + 1 <= 30
  {
    LateGap(s, i, j);
  }

  /** The last fetch and the streak of failures before it: a streak with what ends it, or a streak alone. */
  function Attempts(fetches: seq<Visit>): seq<Visit> {
    if fetches == [] then [] else Streak(fetches[..|fetches| - 1]) + [fetches[|fetches| - 1]]
  }

  lemma {:induction false} AttemptsAreSpaced(vs: seq<Visit>, id: nat)
    ensures Spaced(Attempts(Fetches(map[], vs, id)))
  {
    if vs != [] {
      var (before, v) := (vs[..|vs| - 1], vs[|vs| - 1]);
      var f := Fetches(map[], before, id);
      if v.id == id && !InBackoff(AfterAll(map[], before), id, v.now) {
        MapTracksStreak(before, id);
        assert (f + [v])[..|f|] == f;
      } else {
        AttemptsAreSpaced(before, id);
        assert f + [] == f;
      }
    }
  }

  /** From the seventh on, any half-open hour holds at most 30 attempts, the one that succeeds included. */
  lemma AtMostThirtyAnHour(vs: seq<Visit>, id: nat, i: nat, j: nat, from: int)
    requires 6 <= i <= j < |Attempts(Fetches(map[], vs, id))|
    requires var s := Attempts(Fetches(map[], vs, id)); from <= s[i].now && s[j].now < from + HOUR
    ensures j - i + 1 <= 30
  {
    AttemptsAreSpaced(vs, id);
    ThirtyInSpaced(Attempts(Fetches(map[], vs, id)), i, j, from);
  }

  /** The fetch that ends a streak, however it ends, also waits for the last failure's backoff. */
  lemma NextFetchWaits(vs: seq<Visit>, v: Visit)
    requires Streak(Fetches(map[], vs, v.id)) != [] && !InBackoff(AfterAll(map[], vs), v.id, v.now)
    ensures var s := Streak(Fetches(map[], vs, v.id)); v.now >= s[|s| - 1].now + BackoffFor(|s|)
  {
    MapTracksStreak(vs, v.id);
  }

  // ---------------------------------------------------------------- the clock of a slow cycle

  /** Rows are fetched at or after their cycle's clock. */
  ghost predicate Honest(vs: seq<Visit>) {
    forall i | 0 <= i < |vs| :: vs[i].started >= vs[i].now
  }

  /**
   A failure is booked at its cycle's clock, not when its fetch ran, so between two
   consecutive fetches the backoff is shortened by how late in its cycle the first one
   came: the wait is the full backoff exactly as far as cycles are short.
   */
  lemma RealWait(vs: seq<Visit>, id: nat, i: nat)
    requires Honest(vs) && 1 <= i < |Streak(Fetches(map[], vs, id))|
    ensures var s := Streak(Fetches(map[], vs, id));
            s[i].started - s[i - 1].started >= BackoffFor(i) - (s[i - 1].started - s[i - 1].now)
  {
    MapTracksStreak(vs, id);
    var f := Fetches(map[], vs, id);
    StreakIsSuffix(f, i);
    FetchesAreVisits(map[], vs, id, |f| - |Streak(f)| + i);
  }

  /** How late in its cycle a fetch started. */
  function Late(v: Visit): int {
    v.started - v.now
  }

  lemma StreakIsHonest(vs: seq<Visit>, id: nat, i: nat)
    requires Honest(vs) && i < |Streak(Fetches(map[], vs, id))|
    ensures Late(Streak(Fetches(map[], vs, id))[i]) >= 0
  {
    var f := Fetches(map[], vs, id);
    StreakIsSuffix(f, i);
    FetchesAreVisits(map[], vs, id, |f| - |Streak(f)| + i);
  }

  /** In real time the k-th failure keeps its distance from the first less how late in
      its cycle the first one started; what lies between does not matter. */
  lemma RealRetriesBackOff(vs: seq<Visit>, id: nat, k: nat)
    requires Honest(vs) && 1 <= k <= |Streak(Fetches(map[], vs, id))|
    ensures var s := Streak(Fetches(map[], vs, id)); s[k - 1].started - s[0].started >= LeastDelay(k) - Late(s[0])
  {
    MapTracksStreak(vs, id);
    SpacedDelay(Streak(Fetches(map[], vs, id)), k);
    StreakIsHonest(vs, id, k - 1);
  }

  lemma AttemptsAreVisits(vs: seq<Visit>, id: nat, i: nat)
    requires i < |Attempts(Fetches(map[], vs, id))|
    ensures var f := Fetches(map[], vs, id); |Attempts(f)| <= |f| && Attempts(f)[i] == f[|f| - |Attempts(f)| + i]
    ensures Attempts(Fetches(map[], vs, id))[i] in vs
  {
    var f := Fetches(map[], vs, id);
    if Streak(f[..|f| - 1]) != [] {
      StreakIsSuffix(f[..|f| - 1], if i < |Streak(f[..|f| - 1])| then i else 0);
    }
    FetchesAreVisits(map[], vs, id, |f| - |Attempts(f)| + i);
  }

  /** The hourly cap in real time: from the seventh attempt on, an hour holds 30 attempts
      and at most one more for every two minutes by which the first of them was late. */
  lemma RealHourlyCap(vs: seq<Visit>, id: nat, i: nat, j: nat, from: int)
    requires Honest(vs) && 6 <= i <= j < |Attempts(Fetches(map[], vs, id))|
    requires var s := Attempts(Fetches(map[], vs, id)); from <= s[i].started && s[j].started < from + HOUR
    ensures var s := Attempts(Fetches(map[], vs, id));
            && (j - i) * MAX_BACKOFF < HOUR + Late(s[i])
            && (Late(s[i]) == 0 ==> j - i + 1 <= 30)
  {
    AttemptsAreSpaced(vs, id);
    LateGap(Attempts(Fetches(map[], vs, id)), i, j);
    AttemptsAreVisits(vs, id, j);
  }

  /** One worker: a cycle reads its clock after everything an earlier cycle started. */
  ghost predicate OneAfterAnother(vs: seq<Visit>) {
    forall i, k | 0 <= i < k < |vs| :: vs[k].now == vs[i].now || vs[k].now >= vs[i].started
  }

  lemma {:induction false} FetchesInOrder(vs: seq<Visit>, id: nat, i: nat, k: nat)
    requires OneAfterAnother(vs) && i < k < |Fetches(map[], vs, id)|
    ensures var f := Fetches(map[], vs, id); f[k].now == f[i].now || f[k].now >= f[i].started
  {
    var (before, v) := (vs[..|vs| - 1], vs[|vs| - 1]);
    var f := Fetches(map[], before, id);
    assert forall x | 0 <= x < |before| :: before[x] == vs[x];
    if k < |f| {
      FetchesInOrder(before, id, i, k);
    } else {
      FetchesAreVisits(map[], before, id, i);
      var x :| 0 <= x < |before| && before[x] == f[i];
      assert vs[x] == f[i];
    }
  }

  /** The next attempt belongs to a later cycle. */
  lemma NextClock(vs: seq<Visit>, id: nat, i: nat)
    requires Honest(vs) && OneAfterAnother(vs) && i + 1 < |Attempts(Fetches(map[], vs, id))|
    ensures var s := Attempts(Fetches(map[], vs, id)); s[i + 1].now >= s[i].started
  {
    var (f, s) := (Fetches(map[], vs, id), Attempts(Fetches(map[], vs, id)));
    AttemptsAreSpaced(vs, id);
    AttemptsAreVisits(vs, id, i);
    AttemptsAreVisits(vs, id, i + 1);
    FetchesInOrder(vs, id, |f| - |s| + i, |f| - |s| + i + 1);
    BackoffSchedule(i + 1);
  }

  lemma ThirtyOneInSpaced(s: seq<Visit>, i: nat, j: nat, from: int)
    requires Spaced(s) && 6 <= i < j < |s| && s[i + 1].now >= s[i].started && s[j].started >= s[j].now
    requires from <= s[i].started && s[j].started < from + HOUR
    ensures j - i + 1 <= 31
  {
    LateGap(s, i + 1, j);
  }

  /**
   With one worker the lateness does not add up: from the seventh attempt on, an hour of
   real time holds at most 31 attempts, however late the first of them was.
   */
  lemma AtMostThirtyOneInRealTime(vs: seq<Visit>, id: nat, i: nat, j: nat, from: int)
    requires Honest(vs) && OneAfterAnother(vs) && 6 <= i <= j < |Attempts(Fetches(map[], vs, id))|
    requires var s := Attempts(Fetches(map[], vs, id)); from <= s[i].started && s[j].started < from + HOUR
    ensures j - i + 1 <= 31
  {
    if i < j {
      AttemptsAreSpaced(vs, id);
      NextClock(vs, id, i);
      AttemptsAreVisits(vs, id, j);
      ThirtyOneInSpaced(Attempts(Fetches(map[], vs, id)), i, j, from);
    }
  }

  /** When the last fetch so far started. */
  function End(vs: seq<Visit>): int
    requires vs != []
  {
    if |vs| == 1 then vs[0].started
    else
      var before := End(vs[..|vs| - 1]);
      if vs[|vs| - 1].started > before then vs[|vs| - 1].started else before
  }

  /** A visit that a later cycle can bring: its clock is read when the earlier cycle is
      over, and the row is not in backoff. */
  predicate Retries(vs: seq<Visit>, v: Visit)
    requires vs != []
  {
    End(vs) <= v.now <= v.started && !InBackoff(AfterAll(map[], vs), v.id, v.now)
  }

  /**
   After a failed fetch every retry waits the full backoff in real time exactly if that
   fetch started at its cycle's clock, or its cycle went on for the whole backoff after it.
   */
  lemma FullWaitIff(vs: seq<Visit>, id: nat)
    requires Honest(vs) && vs != [] && Streak(Fetches(map[], vs, id)) != []
    ensures var s := Streak(Fetches(map[], vs, id));
            var last := s[|s| - 1];
            (forall v: Visit | v.id == id && Retries(vs, v) :: v.started - last.started >= BackoffFor(|s|))
              <==> (Late(last) == 0 || End(vs) >= last.started + BackoffFor(|s|))
  {
    var f := Fetches(map[], vs, id);
    var s := Streak(f);
    var last := s[|s| - 1];
    MapTracksStreak(vs, id);
    StreakIsHonest(vs, id, |s| - 1);
    if Late(last) != 0 && End(vs) < last.started + BackoffFor(|s|) {
      var soonest := last.now + BackoffFor(|s|);
      var at := if soonest > End(vs) then soonest else End(vs);
      var v := Visit(at, at, id, false);
      assert Retries(vs, v) && v.started - last.started < BackoffFor(|s|);
    }
  }

  /** So for the fetch with which its cycle ended: exactly if it started at the cycle's clock. */
  lemma FullWaitAtEndIff(vs: seq<Visit>, id: nat)
    requires Honest(vs) && vs != [] && Streak(Fetches(map[], vs, id)) != []
    requires var s := Streak(Fetches(map[], vs, id)); End(vs) == s[|s| - 1].started
    ensures var s := Streak(Fetches(map[], vs, id));
            var last := s[|s| - 1];
            (forall v: Visit | v.id == id && Retries(vs, v) :: v.started - last.started >= BackoffFor(|s|))
              <==> last.started == last.now
  {
    BackoffSchedule(|Streak(Fetches(map[], vs, id))|);
    FullWaitIff(vs, id);
  }

  lemma {:induction false} StreakIsSuffix(f: seq<Visit>, i: nat)
    requires i < |Streak(f)|
    ensures |Streak(f)| <= |f| && Streak(f)[i] == f[|f| - |Streak(f)| + i]
  {
    var n := |f| - 1;
    if i < |Streak(f[..n])| {
      StreakIsSuffix(f[..n], i);
    } else if |Streak(f[..n])| > 0 {
      StreakIsSuffix(f[..n], 0);
    }
  }

  lemma {:induction false} FetchesAreVisits(failed: Failures, vs: seq<Visit>, id: nat, k: nat)
    requires k < |Fetches(failed, vs, id)|
    ensures Fetches(failed, vs, id)[k] in vs
  {
    var before := vs[..|vs| - 1];
    if k < |Fetches(failed, before, id)| {
      FetchesAreVisits(failed, before, id, k);
    }
  }

  lemma TwoFailures(v: Visit, w: Visit)
    requires v.id == w.id && !v.ok && !w.ok && w.now >= v.now + BackoffFor(1)
    ensures Streak(Fetches(map[], [v, w], v.id)) == [v, w]
  {
    assert [v, w][..1] == [v] && [v][..0] == [];
    assert AfterAll(map[], [v]) == Failed(map[], v.id, v.now);
    assert Fetches(map[], [v], v.id) == [v];
    StreakGrows([], v);
    StreakGrows([v], w);
    assert [] + [v] == [v] && [v] + [w] == [v, w];
  }

  /** The shortening is real: behind a slow row, two failed fetches of one file start a second apart. */
  lemma SlowCycleRetriesEarly()
    ensures exists v: Visit, w: Visit ::
              && Honest([v, w]) && v.now <= w.now && v.started <= w.started
              && Streak(Fetches(map[], [v, w], v.id)) == [v, w]
              && w.started - v.started == SECOND < BackoffFor(1)
  {
    var v := Visit(0, 100 * SECOND, 7, false);
    var w := Visit(101 * SECOND, 101 * SECOND, 7, false);
    Shifts();
    TwoFailures(v, w);
    assert Honest([v, w]);
  }

  // ---------------------------------------------------------------- the bound is reached

  lemma FailureIsFetched(before: seq<Visit>, v: Visit)
    requires Fetches(map[], before, v.id) == before && Streak(before) == before && !v.ok
    requires before != [] ==> v.now >= before[|before| - 1].now + BackoffFor(|before|)
    ensures Fetches(map[], before + [v], v.id) == before + [v] && Streak(before + [v]) == before + [v]
  {
    MapTracksStreak(before, v.id);
    assert (before + [v])[..|before|] == before;
  }

  /** Failed visits of one row at its backoffs are all fetched, and are one streak. */
  lemma {:induction false} SpacedFailuresAreFetched(vs: seq<Visit>, id: nat)
    requires Spaced(vs) && forall k | 0 <= k < |vs| :: vs[k].id == id && !vs[k].ok
    ensures Fetches(map[], vs, id) == vs && Streak(vs) == vs
  {
    if vs != [] {
      var n := |vs| - 1;
      SpacedFailuresAreFetched(vs[..n], id);
      FailureIsFetched(vs[..n], vs[n]);
      assert vs[..n] + [vs[n]] == vs;
    }
  }

  /** Seven failures on time, the seventh an hour late in its cycle, then one every two minutes. */
  function LateSeventh(k: nat): Visit {
    if k < 6 then Visit(LeastDelay(k + 1), LeastDelay(k + 1), 7, false)
    else if k == 6 then Visit(LeastDelay(7), LeastDelay(7) + HOUR, 7, false)
    else
      var at := LeastDelay(7) + HOUR + (k - 7) * MAX_BACKOFF;
      Visit(at, at, 7, false)
  }

  function LateSevenths(n: nat): seq<Visit> {
    seq(n, k requires 0 <= k < n => LateSeventh(k))
  }

  lemma LateSeventhIsSpaced(k: nat)
    requires k >= 1
    ensures LateSeventh(k).now >= LateSeventh(k - 1).now + BackoffFor(k)
    ensures LateSeventh(k).now >= LateSeventh(k - 1).started
  {
    LeastDelayStep(k);
    BackoffSchedule(k);
  }

  lemma {:induction false} LateSeventhComesAfter(i: nat, k: nat)
    requires i < k
    ensures LateSeventh(k).now >= LateSeventh(i).started
  {
    LateSeventhIsSpaced(k);
    if i < k - 1 {
      LateSeventhComesAfter(i, k - 1);
      BackoffSchedule(k);
    }
  }

  lemma LateSeventhsAreSpaced(n: nat)
    ensures Spaced(LateSevenths(n))
  {
    forall i | 1 <= i < n ensures LateSeventh(i).now >= LateSeventh(i - 1).now + BackoffFor(i) {
      LateSeventhIsSpaced(i);
    }
  }

  lemma LateSeventhsComeInOrder(n: nat)
    ensures Honest(LateSevenths(n)) && OneAfterAnother(LateSevenths(n))
  {
    forall i, k | 0 <= i < k < n ensures LateSeventh(k).now >= LateSeventh(i).started {
      LateSeventhComesAfter(i, k);
    }
  }

  lemma LateSeventhsAreFetched(n: nat)
    requires n > 0
    ensures Attempts(Fetches(map[], LateSevenths(n), 7)) == LateSevenths(n)
  {
    LateSeventhsAreSpaced(n);
    SpacedFailuresAreFetched(LateSevenths(n), 7);
    StreakEndsInFailure(LateSevenths(n));
  }

  lemma StreakEndsInFailure(f: seq<Visit>)
    requires f != [] && !f[|f| - 1].ok
    ensures Attempts(f) == Streak(f)
  {
  }

  /** The run has 31 attempts in one hour of real time, from the seventh to the thirty-seventh. */
  lemma ThirtyOneInAnHour()
    ensures Honest(LateSevenths(37)) && OneAfterAnother(LateSevenths(37))
    ensures var s := Attempts(Fetches(map[], LateSevenths(37), 7)); |s| == 37 && s[36].started < s[6].started + HOUR
  {
    LateSeventhsComeInOrder(37);
    LateSeventhsAreFetched(37);
  }
}
