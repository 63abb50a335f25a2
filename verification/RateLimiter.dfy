/** The sliding-window limiter: one table of admitted attempts, decided and pruned by any clock. */
module RateLimiter {
  import opened Prelude

  /** Microseconds. */
  type Time = int

  const MINUTE: Time := 60_000_000
  const HOUR: Time := 60 * MINUTE

  datatype Limit = Limit(ceiling: int, window: Time)
  {
    predicate Sound() {
      ceiling >= 1 && window > 0
    }
  }

  datatype Bucket = Bucket(kind: string, digest: seq<bv8>)
  datatype Row = Row(bucket: Bucket, at: Time)
  datatype Decision = Allowed | Refused(retryAfter: Time) | Invalid

  const DELIVERY_LIMITS: seq<Limit> := [Limit(1, MINUTE), Limit(5, HOUR)]
  const REQUEST_LIMITS: seq<Limit> := [Limit(10, MINUTE), Limit(60, HOUR)]
  const VERIFY_LIMITS: seq<Limit> := [Limit(20, MINUTE), Limit(120, HOUR)]

  const GRANULARITY: Time := MINUTE

  /** The longest window of the three lists, and so the age at which a row may be dropped. */
  const MAX_RATE_WINDOW: Time := HOUR

  // ---- The queries ----------------------------------------------------------------------------

  /** A bucket's attempts after a moment, in the order they were stored. */
  function Recent(rows: seq<Row>, bucket: Bucket, cut: Time): (r: seq<Time>)
    ensures forall k :: 0 <= k < |r| ==> r[k] > cut
  {
    if rows == [] then []
    else
      var row := rows[|rows| - 1];
      Recent(rows[..|rows| - 1], bucket, cut) + if row.bucket == bucket && row.at > cut then [row.at] else []
  }

  function Earliest(times: seq<Time>): (r: Option<Time>)
    ensures r.None? <==> times == []
    ensures r.Some? ==> r.value in times && forall t :: t in times ==> r.value <= t
  {
    if times == [] then None
    else
      var rest, t := Earliest(times[..|times| - 1]), times[|times| - 1];
      assert forall u :: u in times ==> u in times[..|times| - 1] || u == t;
      if rest.None? || t < rest.value then Some(t) else rest
  }

  function Coarsen(remaining: Time): (hint: Time)
    ensures hint % GRANULARITY == 0 && hint >= GRANULARITY
    ensures remaining > 0 ==> remaining <= hint < remaining + GRANULARITY
    ensures remaining <= 0 ==> hint == GRANULARITY
  {
    if remaining <= 0 then GRANULARITY else (remaining + GRANULARITY - 1) / GRANULARITY * GRANULARITY
  }

  // ---- One decision ---------------------------------------------------------------------------

  /** The limits in order: the first one reached refuses, and an unsound one met before that is an error. */
  function Judge(rows: seq<Row>, bucket: Bucket, now: Time, limits: seq<Limit>): Decision {
    if limits == [] then Allowed
    else
      var limit := limits[0];
      if !limit.Sound() then Invalid
      else
        var counted := Recent(rows, bucket, now - limit.window);
        if |counted| < limit.ceiling then Judge(rows, bucket, now, limits[1..])
        else
          var oldest := Earliest(counted);
          Refused(Coarsen(if oldest.None? then limit.window else oldest.value + limit.window - now))
  }

  function Decide(rows: seq<Row>, bucket: Bucket, now: Time, limits: seq<Limit>): Decision {
    if |bucket.digest| != 32 || limits == [] then Invalid else Judge(rows, bucket, now, limits)
  }

  lemma JudgeNone(rows: seq<Row>, bucket: Bucket, now: Time)
    ensures Judge(rows, bucket, now, []) == Allowed
  {
  }

  lemma JudgeFrom(rows: seq<Row>, bucket: Bucket, now: Time, limits: seq<Limit>, k: nat)
    requires k < |limits|
    ensures Judge(rows, bucket, now, limits[k..])
         == var counted := Recent(rows, bucket, now - limits[k].window);
            if !limits[k].Sound() then Invalid
            else if |counted| < limits[k].ceiling then Judge(rows, bucket, now, limits[k + 1..])
            else Refused(Coarsen(if Earliest(counted).None? then limits[k].window
                 else Earliest(counted).value + limits[k].window - now))
  {
    hide Recent;
    assert limits[k..][0] == limits[k] && limits[k..][1..] == limits[k + 1..];
  }

  function Pruned(rows: seq<Row>, horizon: Time): seq<Row> {
    if rows == [] then []
    else
      var row := rows[|rows| - 1];
      Pruned(rows[..|rows| - 1], horizon) + if row.at <= horizon then [] else [row]
  }

  /** The table, as the two statements change it. */
  class RateTable {
    var rows: seq<Row>

    method AllowRate(bucket: Bucket, now: Time, limits: seq<Limit>) returns (decision: Decision)
      modifies this
      ensures decision == Decide(old(rows), bucket, now, limits)
      ensures rows == if decision == Allowed then old(rows) + [Row(bucket, now)] else old(rows)
      ensures rows == Step(State(old(rows), []), Request(bucket, now, limits)).rows
    {
      hide Judge, Recent, Earliest, Coarsen, Step, Limit.Sound;
      RequestRows(rows, bucket, now, limits);
      if |bucket.digest| != 32 || limits == [] {
        return Invalid;
      }
      assert limits[0..] == limits;
      for k := 0 to |limits|
        invariant rows == old(rows)
        invariant Judge(rows, bucket, now, limits) == Judge(rows, bucket, now, limits[k..])
      {
        var limit := limits[k];
        JudgeFrom(rows, bucket, now, limits, k);
        if !limit.Sound() {
          return Invalid;
        }
        var counted := Recent(rows, bucket, now - limit.window);
        if |counted| < limit.ceiling {
          continue;
        }
        var oldest := Earliest(counted);
        var retryAfter := limit.window;
        if oldest.Some? {
          retryAfter := oldest.value + limit.window - now;
        }
        return Refused(Coarsen(retryAfter));
      }
      JudgeNone(rows, bucket, now);
      assert limits[|limits|..] == [];
      rows := rows + [Row(bucket, now)];
      decision := Allowed;
    }

    method PruneRateEvents(now: Time) returns (removed: nat)
      modifies this
      ensures rows == Pruned(old(rows), now - MAX_RATE_WINDOW)
      ensures rows == Step(State(old(rows), []), Prune(now)).rows
      ensures removed == |old(rows)| - |rows|
    {
      var before := |rows|;
      PrunedShrinks(rows, now - MAX_RATE_WINDOW);
      rows := Pruned(rows, now - MAX_RATE_WINDOW);
      removed := before - |rows|;
    }
  }

  lemma RequestRows(rows: seq<Row>, bucket: Bucket, now: Time, limits: seq<Limit>)
    ensures Step(State(rows, []), Request(bucket, now, limits)).rows
         == if Decide(rows, bucket, now, limits) == Allowed then rows + [Row(bucket, now)] else rows
  {
    hide Decide;
  }

  lemma {:induction false} PrunedShrinks(rows: seq<Row>, horizon: Time)
    ensures |Pruned(rows, horizon)| <= |rows|
  {
    if rows != [] { PrunedShrinks(rows[..|rows| - 1], horizon); }
  }

  /** The longest window of some lists. */
  method LongestWindow(lists: seq<seq<Limit>>) returns (longest: Time)
    ensures longest >= 0 && forall i, k :: 0 <= i < |lists| && 0 <= k < |lists[i]| ==> lists[i][k].window <= longest
    ensures longest == 0 || exists i, k :: 0 <= i < |lists| && 0 <= k < |lists[i]| && lists[i][k].window == longest
  {
    longest := 0;
    for i := 0 to |lists|
      invariant longest >= 0 && forall j, k :: 0 <= j < i && 0 <= k < |lists[j]| ==> lists[j][k].window <= longest
      invariant longest == 0 || exists j, k :: 0 <= j < i && 0 <= k < |lists[j]| && lists[j][k].window == longest
    {
      for m := 0 to |lists[i]|
        invariant longest >= 0 && forall j, k :: 0 <= j < i && 0 <= k < |lists[j]| ==> lists[j][k].window <= longest
        invariant forall k :: 0 <= k < m ==> lists[i][k].window <= longest
        invariant longest == 0 || exists j, k :: 0 <= j <= i && 0 <= k < |lists[j]| && lists[j][k].window == longest
      {
        if lists[i][m].window > longest { longest := lists[i][m].window; }
      }
    }
  }

  method ComputeMaxRateWindow() returns (longest: Time)
    ensures longest == MAX_RATE_WINDOW
  {
    var lists := [DELIVERY_LIMITS, REQUEST_LIMITS, VERIFY_LIMITS];
    longest := LongestWindow(lists);
    assert lists[0][1].window == HOUR;
  }

  /** A limit lets an attempt by. */
  predicate Passes(rows: seq<Row>, bucket: Bucket, now: Time, limit: Limit) {
    limit.Sound() && |Recent(rows, bucket, now - limit.window)| < limit.ceiling
  }

  /** The first of the limits that does not. */
  predicate StopsAt(rows: seq<Row>, bucket: Bucket, now: Time, limits: seq<Limit>, k: int) {
    && 0 <= k < |limits| && !Passes(rows, bucket, now, limits[k])
    && forall j :: 0 <= j < k ==> Passes(rows, bucket, now, limits[j])
  }

  /** Allowed says every limit lets the attempt by; any other answer comes from the first that
      does not: a refusal from a full one, an error from an unsound one. */
  lemma JudgeMeans(rows: seq<Row>, bucket: Bucket, now: Time, limits: seq<Limit>)
    ensures Judge(rows, bucket, now, limits) == Allowed <==> forall l :: l in limits ==> Passes(rows, bucket, now, l)
    ensures Judge(rows, bucket, now, limits) != Allowed ==>
              exists k :: StopsAt(rows, bucket, now, limits, k)
                && (if limits[k].Sound() then Judge(rows, bucket, now, limits).Refused?
                                              && Refuses(rows, bucket, now, limits[k],
                                                 Judge(rows, bucket, now, limits).retryAfter)
                    else Judge(rows, bucket, now, limits) == Invalid)
  {
    hide Judge, Passes, Refuses;
    if Judge(rows, bucket, now, limits) == Allowed {
      AllPass(rows, bucket, now, limits);
    } else {
      var k := FirstStop(rows, bucket, now, limits);
      assert limits[k] in limits;
    }
  }

  lemma {:induction false} AllPass(rows: seq<Row>, bucket: Bucket, now: Time, limits: seq<Limit>)
    requires Judge(rows, bucket, now, limits) == Allowed
    ensures forall l :: l in limits ==> Passes(rows, bucket, now, l)
  {
    hide Recent;
    if limits != [] {
      AllPass(rows, bucket, now, limits[1..]);
      assert forall l :: l in limits <==> l == limits[0] || l in limits[1..];
    }
  }

  lemma {:induction false} FirstStop(rows: seq<Row>, bucket: Bucket, now: Time, limits: seq<Limit>) returns (k: int)
    requires Judge(rows, bucket, now, limits) != Allowed
    ensures StopsAt(rows, bucket, now, limits, k)
    ensures if limits[k].Sound() then Judge(rows, bucket, now, limits).Refused?
                                      && Refuses(rows, bucket, now, limits[k],
                                         Judge(rows, bucket, now, limits).retryAfter)
            else Judge(rows, bucket, now, limits) == Invalid
  {
    hide Recent;
    if Passes(rows, bucket, now, limits[0]) {
      k := FirstStop(rows, bucket, now, limits[1..]);
      StopsLater(rows, bucket, now, limits, k);
      k := k + 1;
    } else {
      k := 0;
    }
  }

  lemma StopsLater(rows: seq<Row>, bucket: Bucket, now: Time, limits: seq<Limit>, k: int)
    requires limits != [] && Passes(rows, bucket, now, limits[0]) && StopsAt(rows, bucket, now, limits[1..], k)
    ensures StopsAt(rows, bucket, now, limits, k + 1) && limits[k + 1] == limits[1..][k]
  {
    hide Passes;
    forall j | 0 <= j < k + 1 ensures Passes(rows, bucket, now, limits[j]) {
      if j > 0 { assert limits[1..][j - 1] == limits[j]; }
    }
  }

  /** A limit refuses: its window is full, and the hint reaches past the moment its oldest attempt leaves. */
  predicate Refuses(rows: seq<Row>, bucket: Bucket, now: Time, limit: Limit, hint: Time) {
    var counted := Recent(rows, bucket, now - limit.window);
    && limit.Sound() && |counted| >= limit.ceiling
    && Earliest(counted).Some? && hint == Coarsen(Earliest(counted).value + limit.window - now)
  }

  // ---- Whole runs -----------------------------------------------------------------------------

  datatype Call = Request(bucket: Bucket, now: Time, limits: seq<Limit>) | Prune(now: Time)

  /** The table, and every attempt ever admitted. */
  datatype State = State(rows: seq<Row>, admitted: seq<Row>)

  function Step(s: State, call: Call): State {
    match call
    case Request(bucket, now, limits) =>
      if Decide(s.rows, bucket, now, limits) == Allowed
      then State(s.rows + [Row(bucket, now)], s.admitted + [Row(bucket, now)])
      else s
    case Prune(now) => s.(rows := Pruned(s.rows, now - MAX_RATE_WINDOW))
  }

  function Run(calls: seq<Call>): State {
    if calls == [] then State([], []) else Step(Run(calls[..|calls| - 1]), calls[|calls| - 1])
  }

  /** The attempts of a bucket in a half-open window. */
  function Within(rows: seq<Row>, bucket: Bucket, x: Time, y: Time): nat {
    if rows == [] then 0
    else
      var row := rows[|rows| - 1];
      Within(rows[..|rows| - 1], bucket, x, y) + if row.bucket == bucket && x < row.at <= y then 1 else 0
  }

  /** An attempt that is let by counts once in every window that reaches it, and in no other; one
      that is refused, or met by an error, counts in none. */
  lemma AttemptCounts(s: State, call: Call, bucket: Bucket, x: Time, y: Time)
    requires call.Request?
    ensures var next, allowed := Step(s, call), Decide(s.rows, call.bucket, call.now, call.limits) == Allowed;
            var more := if allowed && call.bucket == bucket && x < call.now <= y then 1 else 0;
            && Within(next.rows, bucket, x, y) == Within(s.rows, bucket, x, y) + more
            && Within(next.admitted, bucket, x, y) == Within(s.admitted, bucket, x, y) + more
  {
    hide Within, Decide;
    WithinAppend(s.rows, Row(call.bucket, call.now), bucket, x, y);
    WithinAppend(s.admitted, Row(call.bucket, call.now), bucket, x, y);
  }

  /** A bucket's attempts after a moment. */
  ghost function AttemptsAfter(rows: seq<Row>, bucket: Bucket, cut: Time): set<int> {
    set i | 0 <= i < |rows| && rows[i].bucket == bucket && rows[i].at > cut
  }

  ghost predicate AttemptedAt(rows: seq<Row>, bucket: Bucket, cut: Time, t: Time) {
    exists i :: i in AttemptsAfter(rows, bucket, cut) && rows[i].at == t
  }

  lemma AttemptsAppend(rows: seq<Row>, row: Row, bucket: Bucket, cut: Time, t: Time)
    ensures var mine := row.bucket == bucket && row.at > cut;
            && AttemptsAfter(rows + [row], bucket, cut)
               == AttemptsAfter(rows, bucket, cut) + (if mine then {|rows|} else {})
            && (AttemptedAt(rows + [row], bucket, cut, t) <==>
                AttemptedAt(rows, bucket, cut, t) || (mine && row.at == t))
  {
    var all := rows + [row];
    if i :| i in AttemptsAfter(rows, bucket, cut) && rows[i].at == t {
      assert i in AttemptsAfter(all, bucket, cut) && all[i].at == t;
    }
    if i :| i in AttemptsAfter(all, bucket, cut) && all[i].at == t {
      assert i < |rows| ==> i in AttemptsAfter(rows, bucket, cut) && rows[i].at == t;
    }
    assert row.bucket == bucket && row.at > cut ==> |rows| in AttemptsAfter(all, bucket, cut) && all[|rows|] == row;
  }

  lemma {:induction false} RecentMeans(rows: seq<Row>, bucket: Bucket, cut: Time)
    ensures |Recent(rows, bucket, cut)| == |AttemptsAfter(rows, bucket, cut)|
    ensures forall t :: t in Recent(rows, bucket, cut) <==> AttemptedAt(rows, bucket, cut, t)
  {
    if rows == [] {
      assert AttemptsAfter(rows, bucket, cut) == {};
    } else {
      var last := |rows| - 1;
      assert rows == rows[..last] + [rows[last]];
      RecentMeans(rows[..last], bucket, cut);
      RecentAppend(rows[..last], rows[last], bucket, cut);
      NotYetAttempt(rows[..last], bucket, cut);
      hide Recent, AttemptsAfter, AttemptedAt;
      AttemptsAppend(rows[..last], rows[last], bucket, cut, 0);
      forall t { AttemptsAppend(rows[..last], rows[last], bucket, cut, t); }
    }
  }

  lemma NotYetAttempt(rows: seq<Row>, bucket: Bucket, cut: Time)
    ensures |rows| !in AttemptsAfter(rows, bucket, cut)
  {
  }

  function Times(rows: seq<Row>, row: Row): nat {
    if rows == [] then 0 else Times(rows[..|rows| - 1], row) + if rows[|rows| - 1] == row then 1 else 0
  }

  /** A prune drops the rows at or before its horizon, and keeps every other as often as it was there. */
  lemma {:induction false} PrunedMeans(rows: seq<Row>, horizon: Time, row: Row)
    ensures Times(Pruned(rows, horizon), row) == if row.at <= horizon then 0 else Times(rows, row)
  {
    if rows != [] {
      var rest, last := rows[..|rows| - 1], rows[|rows| - 1];
      PrunedMeans(rest, horizon, row);
      var kept := Pruned(rest, horizon);
      if last.at > horizon {
        assert (kept + [last])[..|kept|] == kept;
      } else {
        assert kept + [] == kept;
      }
    }
  }

  lemma {:induction false} RecentCovers(rows: seq<Row>, bucket: Bucket, cut: Time, x: Time, y: Time)
    requires cut <= x
    ensures Within(rows, bucket, x, y) <= |Recent(rows, bucket, cut)|
  {
    if rows != [] { RecentCovers(rows[..|rows| - 1], bucket, cut, x, y); }
  }

  lemma {:induction false} PrunedRecent(rows: seq<Row>, horizon: Time, bucket: Bucket, cut: Time)
    requires horizon <= cut
    ensures Recent(Pruned(rows, horizon), bucket, cut) == Recent(rows, bucket, cut)
  {
    if rows != [] {
      var rest, row := rows[..|rows| - 1], rows[|rows| - 1];
      PrunedRecent(rest, horizon, bucket, cut);
      var kept := Pruned(rest, horizon);
      if row.at > horizon {
        assert (kept + [row])[..|kept + [row]| - 1] == kept;
      } else {
        assert kept + [] == kept;
      }
    }
  }

  lemma RecentAppend(rows: seq<Row>, row: Row, bucket: Bucket, cut: Time)
    ensures Recent(rows + [row], bucket, cut)
         == Recent(rows, bucket, cut) + if row.bucket == bucket && row.at > cut then [row.at] else []
  {
    assert (rows + [row])[..|rows|] == rows;
  }

  lemma WithinAppend(rows: seq<Row>, row: Row, bucket: Bucket, x: Time, y: Time)
    ensures Within(rows + [row], bucket, x, y)
         == Within(rows, bucket, x, y) + if row.bucket == bucket && x < row.at <= y then 1 else 0
  {
    assert (rows + [row])[..|rows|] == rows;
  }

  /** No prune so far reached past a moment. */
  predicate PrunesReach(calls: seq<Call>, cut: Time) {
    forall call :: call in calls && call.Prune? ==> call.now - MAX_RATE_WINDOW <= cut
  }

  /** Past what has been pruned, the table holds every admitted attempt. */
  lemma {:induction false} TableRemembers(calls: seq<Call>, bucket: Bucket, cut: Time)
    requires PrunesReach(calls, cut)
    ensures Recent(Run(calls).rows, bucket, cut) == Recent(Run(calls).admitted, bucket, cut)
  {
    hide Recent, Step;
    if calls == [] {
      NothingRecent(bucket, cut);
    } else {
      var rest, call := calls[..|calls| - 1], calls[|calls| - 1];
      TableRemembers(rest, bucket, cut);
      assert call in calls;
      StepRemembers(Run(rest), call, bucket, cut);
    }
  }

  lemma NothingRecent(bucket: Bucket, cut: Time)
    ensures Recent([], bucket, cut) == []
  {
  }

  lemma StepRemembers(s: State, call: Call, bucket: Bucket, cut: Time)
    requires call.Prune? ==> call.now - MAX_RATE_WINDOW <= cut
    requires Recent(s.rows, bucket, cut) == Recent(s.admitted, bucket, cut)
    ensures Recent(Step(s, call).rows, bucket, cut) == Recent(Step(s, call).admitted, bucket, cut)
  {
    hide Recent, Decide, Pruned;
    match call {
      case Request(b, now, _) =>
        RecentAppend(s.rows, Row(b, now), bucket, cut);
        RecentAppend(s.admitted, Row(b, now), bucket, cut);
      case Prune(now) => PrunedRecent(s.rows, now - MAX_RATE_WINDOW, bucket, cut);
    }
  }

  /** A bucket's requests all carry a limit. */
  predicate AlwaysLimited(calls: seq<Call>, bucket: Bucket, limit: Limit) {
    forall call :: call in calls && call.Request? && call.bucket == bucket ==> limit in call.limits
  }

  /** Every prune is behind the bucket's later requests, or behind the window looked at. */
  predicate PrunesBehind(calls: seq<Call>, bucket: Bucket, x: Time) {
    forall i, j :: 0 <= i < j < |calls| && calls[i].Prune? && calls[j].Request? && calls[j].bucket == bucket ==>
      calls[i].now <= calls[j].now || calls[i].now - MAX_RATE_WINDOW <= x
  }

  /** At most a ceiling's worth of admitted attempts in any window of a limit's length,
      whatever order the clocks of the requests arrive in. */
  lemma {:induction false} WindowHolds(calls: seq<Call>, bucket: Bucket, limit: Limit, x: Time)
    requires AlwaysLimited(calls, bucket, limit) && limit.Sound() && limit.window <= MAX_RATE_WINDOW
    requires PrunesBehind(calls, bucket, x)
    ensures Within(Run(calls).admitted, bucket, x, x + limit.window) <= limit.ceiling
  {
    if calls != [] {
      var rest, call := calls[..|calls| - 1], calls[|calls| - 1];
      assert call in calls;
      WindowHolds(rest, bucket, limit, x);
      RunLast(calls);
      hide Within, Run, Step;
      if call.Request? && call.bucket == bucket && x < call.now <= x + limit.window {
        PrunesBehindLast(calls, bucket, x, limit.window);
        RequestHolds(rest, call, limit, x);
      } else {
        OutsideAdds(Run(rest), call, bucket, x, x + limit.window);
      }
    }
  }

  /** What is not a request of the bucket inside the window adds nothing to it. */
  lemma OutsideAdds(s: State, call: Call, bucket: Bucket, x: Time, y: Time)
    requires call.Request? && call.bucket == bucket ==> !(x < call.now <= y)
    ensures Within(Step(s, call).admitted, bucket, x, y) == Within(s.admitted, bucket, x, y)
  {
    hide Within, Decide;
    if call.Request? { WithinAppend(s.admitted, Row(call.bucket, call.now), bucket, x, y); }
  }

  lemma PrunesBehindLast(calls: seq<Call>, bucket: Bucket, x: Time, window: Time)
    requires calls != [] && PrunesBehind(calls, bucket, x) && window <= MAX_RATE_WINDOW
    requires var call := calls[|calls| - 1]; call.Request? && call.bucket == bucket && call.now <= x + window
    ensures PrunesReach(calls[..|calls| - 1], x)
  {
    var last := |calls| - 1;
    forall call | call in calls[..last] && call.Prune? ensures call.now - MAX_RATE_WINDOW <= x {
      var i :| 0 <= i < last && calls[i] == call;
      assert calls[i].now <= calls[last].now || calls[i].now - MAX_RATE_WINDOW <= x;
    }
  }

  /** One more attempt inside the window was admitted only below the ceiling. */
  lemma RequestHolds(rest: seq<Call>, call: Call, limit: Limit, x: Time)
    requires call.Request? && limit in call.limits && x < call.now <= x + limit.window
    requires PrunesReach(rest, x) && limit.Sound()
    requires Within(Run(rest).admitted, call.bucket, x, x + limit.window) <= limit.ceiling
    ensures Within(Step(Run(rest), call).admitted, call.bucket, x, x + limit.window) <= limit.ceiling
  {
    hide Within, Run, Recent, Judge, PrunesReach;
    var s, bucket := Run(rest), call.bucket;
    if Decide(s.rows, bucket, call.now, call.limits) == Allowed {
      JudgeMeans(s.rows, bucket, call.now, call.limits);
      TableRemembers(rest, bucket, x);
      RecentCovers(s.admitted, bucket, x, x, x + limit.window);
      RecentNests(s.rows, bucket, call.now - limit.window, x);
      WithinAppend(s.admitted, Row(bucket, call.now), bucket, x, x + limit.window);
    }
  }

  lemma {:induction false} RecentNests(rows: seq<Row>, bucket: Bucket, cut: Time, x: Time)
    requires cut <= x
    ensures |Recent(rows, bucket, x)| <= |Recent(rows, bucket, cut)|
  {
    if rows != [] { RecentNests(rows[..|rows| - 1], bucket, cut, x); }
  }

  /** Over any run whose prunes are not ahead of a request: the request is let by if and only if
      its bucket is a digest of 32 bytes, there are limits, each is sound, and of all the attempts
      ever admitted for the bucket fewer than its ceiling lie within its window. */
  lemma AllowedExactly(calls: seq<Call>, bucket: Bucket, now: Time, limits: seq<Limit>)
    requires forall call :: call in calls && call.Prune? ==> call.now <= now
    requires forall l :: l in limits ==> l.window <= MAX_RATE_WINDOW
    ensures Decide(Run(calls).rows, bucket, now, limits) == Allowed
       <==> && |bucket.digest| == 32 && limits != []
            && forall l :: l in limits ==>
                 l.Sound() && |AttemptsAfter(Run(calls).admitted, bucket, now - l.window)| < l.ceiling
  {
    hide Run, Recent, Judge, AttemptsAfter;
    JudgeMeans(Run(calls).rows, bucket, now, limits);
    forall l | l in limits
      ensures |Recent(Run(calls).rows, bucket, now - l.window)|
              == |AttemptsAfter(Run(calls).admitted, bucket, now - l.window)|
    {
      TableRemembers(calls, bucket, now - l.window);
      RecentMeans(Run(calls).admitted, bucket, now - l.window);
    }
  }

  // ---- Pruning is invisible -------------------------------------------------------------------

  lemma {:induction false} SameRecentSameJudgement(x: seq<Row>, y: seq<Row>, bucket: Bucket, now: Time,
                                                   limits: seq<Limit>)
    requires forall l :: l in limits ==> Recent(x, bucket, now - l.window) == Recent(y, bucket, now - l.window)
    ensures Judge(x, bucket, now, limits) == Judge(y, bucket, now, limits)
  {
    if limits != [] {
      assert limits[0] in limits;
      SameRecentSameJudgement(x, y, bucket, now, limits[1..]);
      JudgeFirst(x, y, bucket, now, limits);
    }
  }

  lemma JudgeFirst(x: seq<Row>, y: seq<Row>, bucket: Bucket, now: Time, limits: seq<Limit>)
    requires limits != [] && Judge(x, bucket, now, limits[1..]) == Judge(y, bucket, now, limits[1..])
    requires Recent(x, bucket, now - limits[0].window) == Recent(y, bucket, now - limits[0].window)
    ensures Judge(x, bucket, now, limits) == Judge(y, bucket, now, limits)
  {
    hide Recent, Earliest, Coarsen;
  }

  /** Dropping what is an hour old changes no decision from then on. */
  lemma PruneKeepsDecisions(rows: seq<Row>, pruned: Time, bucket: Bucket, now: Time, limits: seq<Limit>)
    requires now >= pruned && forall l :: l in limits ==> l.window <= MAX_RATE_WINDOW
    ensures Judge(Pruned(rows, pruned - MAX_RATE_WINDOW), bucket, now, limits) == Judge(rows, bucket, now, limits)
  {
    hide Judge, Recent, Pruned;
    var horizon := pruned - MAX_RATE_WINDOW;
    forall l | l in limits
      ensures Recent(Pruned(rows, horizon), bucket, now - l.window) == Recent(rows, bucket, now - l.window)
    {
      PrunedRecent(rows, horizon, bucket, now - l.window);
    }
    SameRecentSameJudgement(Pruned(rows, horizon), rows, bucket, now, limits);
  }

  /** With any clock behind the prune it can: the attempt of that very hour ago is forgotten. */
  lemma PruneForgetsForAnEarlierClock(bucket: Bucket, pruned: Time, now: Time)
    requires now < pruned
    ensures var rows, limits := [Row(bucket, pruned - MAX_RATE_WINDOW)], [Limit(1, HOUR)];
            && Judge(rows, bucket, now, limits).Refused?
            && Judge(Pruned(rows, pruned - MAX_RATE_WINDOW), bucket, now, limits) == Allowed
  {
    var row := Row(bucket, pruned - MAX_RATE_WINDOW);
    RecentOne(row, bucket, now - HOUR);
    PrunedOne(row, pruned - MAX_RATE_WINDOW);
    hide Judge, Recent, Pruned;
    JudgeOne([row], bucket, now, Limit(1, HOUR));
    JudgeOne([], bucket, now, Limit(1, HOUR));
  }

  lemma RecentOne(row: Row, bucket: Bucket, cut: Time)
    ensures Recent([row], bucket, cut) == if row.bucket == bucket && row.at > cut then [row.at] else []
    ensures Recent([], bucket, cut) == []
  {
    assert [row][..0] == [];
  }

  lemma PrunedOne(row: Row, horizon: Time)
    ensures Pruned([row], horizon) == if row.at <= horizon then [] else [row]
  {
    assert [row][..0] == [];
  }

  lemma JudgeOne(rows: seq<Row>, bucket: Bucket, now: Time, limit: Limit)
    ensures var answer, counted := Judge(rows, bucket, now, [limit]), Recent(rows, bucket, now - limit.window);
            if !limit.Sound() then answer == Invalid else if |counted| < limit.ceiling then answer == Allowed
              else answer.Refused?
  {
    hide Recent;
    assert [limit][1..] == [];
  }

  ghost predicate WithinTheHour(limits: seq<Limit>) {
    forall l :: l in limits ==> l.window <= MAX_RATE_WINDOW
  }

  /** A prune is invisible to a clock, whatever was stored and asked, exactly when the clock is
      not behind it. */
  lemma InvisibleExactly(bucket: Bucket, pruned: Time, now: Time)
    ensures (forall rows, limits :: WithinTheHour(limits) ==>
              Judge(Pruned(rows, pruned - MAX_RATE_WINDOW), bucket, now, limits) == Judge(rows, bucket, now, limits))
       <==> now >= pruned
  {
    hide Judge, Recent, Pruned;
    if now >= pruned {
      forall rows, limits | WithinTheHour(limits)
        ensures Judge(Pruned(rows, pruned - MAX_RATE_WINDOW), bucket, now, limits) == Judge(rows, bucket, now, limits)
      {
        PruneKeepsDecisions(rows, pruned, bucket, now, limits);
      }
    } else {
      PruneForgetsForAnEarlierClock(bucket, pruned, now);
      var rows, limits := [Row(bucket, pruned - MAX_RATE_WINDOW)], [Limit(1, HOUR)];
      assert WithinTheHour(limits);
      assert Judge(Pruned(rows, pruned - MAX_RATE_WINDOW), bucket, now, limits) != Judge(rows, bucket, now, limits);
    }
  }

  /** And a run whose prune is ahead of a later request admits two attempts a microsecond apart
      where one an hour is the limit. */
  lemma EarlyPruneExceedsTheLimit(bucket: Bucket)
    requires |bucket.digest| == 32
    ensures var limits := [Limit(1, HOUR)];
            var calls := [Request(bucket, HOUR, limits), Prune(2 * HOUR), Request(bucket, HOUR + 1, limits)];
            && AlwaysLimited(calls, bucket, limits[0]) && !PrunesBehind(calls, bucket, HOUR - 1)
            && Within(Run(calls).admitted, bucket, HOUR - 1, 2 * HOUR - 1) == 2
  {
    var limits := [Limit(1, HOUR)];
    var first, second := Row(bucket, HOUR), Row(bucket, HOUR + 1);
    var a, b, c := Request(bucket, HOUR, limits), Prune(2 * HOUR), Request(bucket, HOUR + 1, limits);
    hide Within, Run, Recent, Pruned, Decide;
    RunThree(a, b, c);
    NothingRecent(bucket, 0);
    NothingRecent(bucket, 1);
    Admits(State([], []), a);
    PrunedOne(first, HOUR);
    Admits(State([], [first]), c);
    WithinTwo(first, second, bucket, HOUR - 1, 2 * HOUR - 1);
    hide Step;
    var calls := [a, b, c];
    assert [] + [first] == [first] && [] + [second] == [second] && [first] + [second] == [first, second];
    assert calls[1].Prune? && calls[2].Request? && calls[2].bucket == bucket && calls[1].now > calls[2].now;
  }

  lemma RunThree(a: Call, b: Call, c: Call)
    ensures Run([a, b, c]) == Step(Step(Step(State([], []), a), b), c)
  {
    RunLast([a]);
    RunLast([a, b]);
    RunLast([a, b, c]);
    hide Run, Step;
    assert [a, b, c][..2] == [a, b] && [a, b][..1] == [a] && [a][..0] == [];
  }

  /** A request with nothing counted against its one limit is admitted. */
  lemma Admits(s: State, call: Call)
    requires call.Request? && |call.bucket.digest| == 32 && call.limits == [Limit(1, HOUR)]
    requires Recent(s.rows, call.bucket, call.now - HOUR) == []
    ensures var row := Row(call.bucket, call.now);
            Step(s, call) == State(s.rows + [row], s.admitted + [row])
  {
    hide Recent, Judge;
    JudgeOne(s.rows, call.bucket, call.now, Limit(1, HOUR));
  }

  lemma RunLast(calls: seq<Call>)
    requires calls != []
    ensures Run(calls) == Step(Run(calls[..|calls| - 1]), calls[|calls| - 1])
    ensures Run([]) == State([], [])
  {
    hide Step;
  }

  lemma WithinTwo(first: Row, second: Row, bucket: Bucket, x: Time, y: Time)
    requires first.bucket == second.bucket == bucket && x < first.at <= y && x < second.at <= y
    ensures Within([first, second], bucket, x, y) == 2
  {
    assert [first, second][..1] == [first] && [first][..0] == [];
    assert Within([first], bucket, x, y) == 1;
  }

  function WithoutPrunes(calls: seq<Call>): seq<Call> {
    if calls == [] then []
    else
      var call := calls[|calls| - 1];
      WithoutPrunes(calls[..|calls| - 1]) + if call.Prune? then [] else [call]
  }

  /** Every request's clock is at or past every earlier prune's, and its windows are within the hour. */
  predicate Timely(calls: seq<Call>) {
    && (forall i, j :: 0 <= i < j < |calls| && calls[i].Prune? && calls[j].Request? ==> calls[i].now <= calls[j].now)
    && (forall call :: call in calls && call.Request? ==> forall l :: l in call.limits ==> l.window <= MAX_RATE_WINDOW)
  }

  /** A table that is never pruned admits exactly the same attempts. */
  lemma {:induction false} PruningIsInvisible(calls: seq<Call>)
    requires Timely(calls)
    ensures Run(WithoutPrunes(calls)) == State(Run(calls).admitted, Run(calls).admitted)
  {
    if calls != [] {
      var last := |calls| - 1;
      var rest, call := calls[..last], calls[last];
      PruningIsInvisible(rest);
      if call.Request? {
        hide Recent, Judge;
        var s := Run(rest);
        RequestUnaffected(calls);
        var unpruned := WithoutPrunes(rest);
        assert (unpruned + [call])[..|unpruned|] == unpruned;
      } else {
        assert WithoutPrunes(calls) == WithoutPrunes(rest);
      }
    }
  }

  /** The last request of a timely run is judged on the pruned table as on the unpruned. */
  lemma RequestUnaffected(calls: seq<Call>)
    requires Timely(calls) && calls != [] && calls[|calls| - 1].Request?
    ensures var s, call := Run(calls[..|calls| - 1]), calls[|calls| - 1];
            Judge(s.rows, call.bucket, call.now, call.limits) == Judge(s.admitted, call.bucket, call.now, call.limits)
  {
    hide Recent, Run, Judge;
    var last := |calls| - 1;
    var rest, call := calls[..last], calls[last];
    assert call in calls;
    forall l | l in call.limits
      ensures Recent(Run(rest).rows, call.bucket, call.now - l.window)
              == Recent(Run(rest).admitted, call.bucket, call.now - l.window)
    {
      forall p | p in rest && p.Prune? ensures p.now - MAX_RATE_WINDOW <= call.now - l.window {
        var i :| 0 <= i < last && calls[i] == p;
      }
      TableRemembers(rest, call.bucket, call.now - l.window);
    }
    SameRecentSameJudgement(Run(rest).rows, Run(rest).admitted, call.bucket, call.now, call.limits);
  }

  // ---- Waiting the hint -----------------------------------------------------------------------

  predicate OrderedClocks(calls: seq<Call>) {
    forall i, j :: 0 <= i < j < |calls| ==> calls[i].now <= calls[j].now
  }

  lemma {:induction false} AdmittedBy(calls: seq<Call>, now: Time)
    requires forall call :: call in calls ==> call.now <= now
    ensures forall row :: row in Run(calls).admitted ==> row.at <= now
  {
    if calls != [] {
      assert calls[|calls| - 1] in calls;
      AdmittedBy(calls[..|calls| - 1], now);
    }
  }

  lemma {:induction false} RecentIsWithin(rows: seq<Row>, bucket: Bucket, cut: Time, now: Time)
    requires forall row :: row in rows ==> row.at <= now
    ensures |Recent(rows, bucket, cut)| == Within(rows, bucket, cut, now)
  {
    if rows != [] {
      assert rows[|rows| - 1] in rows;
      RecentIsWithin(rows[..|rows| - 1], bucket, cut, now);
    }
  }

  lemma {:induction false} StoredWereAdmitted(calls: seq<Call>, bucket: Bucket, cut: Time)
    ensures |Recent(Run(calls).rows, bucket, cut)| <= |Recent(Run(calls).admitted, bucket, cut)|
  {
    hide Recent, Step;
    if calls == [] {
      NothingRecent(bucket, cut);
    } else {
      var rest, call := calls[..|calls| - 1], calls[|calls| - 1];
      StoredWereAdmitted(rest, bucket, cut);
      StepStoresFewer(Run(rest), call, bucket, cut);
    }
  }

  lemma StepStoresFewer(s: State, call: Call, bucket: Bucket, cut: Time)
    requires |Recent(s.rows, bucket, cut)| <= |Recent(s.admitted, bucket, cut)|
    ensures |Recent(Step(s, call).rows, bucket, cut)| <= |Recent(Step(s, call).admitted, bucket, cut)|
  {
    hide Recent, Decide, Pruned;
    match call {
      case Request(b, now, _) =>
        RecentAppend(s.rows, Row(b, now), bucket, cut);
        RecentAppend(s.admitted, Row(b, now), bucket, cut);
      case Prune(now) => PrunedRecentFewer(s.rows, now - MAX_RATE_WINDOW, bucket, cut);
    }
  }

  lemma {:induction false} PrunedRecentFewer(rows: seq<Row>, horizon: Time, bucket: Bucket, cut: Time)
    ensures |Recent(Pruned(rows, horizon), bucket, cut)| <= |Recent(rows, bucket, cut)|
  {
    if rows != [] {
      var rest, row := rows[..|rows| - 1], rows[|rows| - 1];
      PrunedRecentFewer(rest, horizon, bucket, cut);
      RecentAppend(Pruned(rest, horizon), row, bucket, cut);
      assert Pruned(rest, horizon) + [] == Pruned(rest, horizon);
    }
  }

  lemma {:induction false} EarliestLeaves(rows: seq<Row>, bucket: Bucket, cut: Time, oldest: Time, later: Time)
    requires oldest in Recent(rows, bucket, cut) && cut <= oldest <= later
    ensures |Recent(rows, bucket, later)| < |Recent(rows, bucket, cut)|
  {
    var rest, row := rows[..|rows| - 1], rows[|rows| - 1];
    RecentNests(rest, bucket, cut, later);
    if oldest in Recent(rest, bucket, cut) {
      EarliestLeaves(rest, bucket, cut, oldest, later);
    }
  }

  /** With ordered clocks, once the hint has passed and nothing else was admitted, the
      limit that refused is below its ceiling again. */
  lemma HintClears(calls: seq<Call>, bucket: Bucket, now: Time, limit: Limit, hint: Time, later: Time)
    requires OrderedClocks(calls) && (forall call :: call in calls ==> call.now <= now)
    requires AlwaysLimited(calls, bucket, limit) && limit.window <= MAX_RATE_WINDOW
    requires Refuses(Run(calls).rows, bucket, now, limit, hint) && later >= now + hint
    ensures |Recent(Run(calls).rows, bucket, later - limit.window)| < limit.ceiling
  {
    hide Run, Within, Recent;
    var rows, cut := Run(calls).rows, now - limit.window;
    AdmittedBy(calls, now);
    RecentIsWithin(Run(calls).admitted, bucket, cut, now);
    WindowHolds(calls, bucket, limit, cut);
    StoredWereAdmitted(calls, bucket, cut);
    var oldest := Earliest(Recent(rows, bucket, cut)).value;
    EarliestLeaves(rows, bucket, cut, oldest, later - limit.window);
  }
}
