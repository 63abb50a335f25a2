/** An exchange calendar, its trading sessions, and how far one bar reaches. */
module FeatureCalendar {

  /** A date, ordered as its text is. */
  type Date = int

  datatype SessionStatus = Open | HalfDay | Closed

  datatype Session = Session(date: Date, status: SessionStatus)
  {
    predicate IsSession() {
      status == Open || status == HalfDay
    }
  }

  /** Calendars are read in date order and hold each date once. */
  ghost predicate Ascending(calendar: seq<Session>) {
    forall i, j :: 0 <= i < j < |calendar| ==> calendar[i].date < calendar[j].date
  }

  ghost predicate AscendingDates(dates: seq<Date>) {
    forall i, j :: 0 <= i < j < |dates| ==> dates[i] < dates[j]
  }

  ghost predicate AllBefore(dates: seq<Date>, d: Date) {
    forall i :: 0 <= i < |dates| ==> dates[i] < d
  }

  /** The trading sessions a calendar holds. */
  function Trading(calendar: seq<Session>): seq<Date>
    decreases |calendar|
  {
    if calendar == [] then []
    else
      var last := |calendar| - 1;
      Trading(calendar[..last]) + (if calendar[last].IsSession() then [calendar[last].date] else [])
  }

  ghost predicate TradesAt(calendar: seq<Session>, i: int, d: Date) {
    0 <= i < |calendar| && calendar[i].date == d && calendar[i].IsSession()
  }

  /** A date is a trading session exactly when the calendar marks it open or half a day. */
  lemma {:induction false} TradingMeans(calendar: seq<Session>, d: Date)
    ensures d in Trading(calendar) <==> exists i :: TradesAt(calendar, i, d)
    decreases |calendar|
  {
    if calendar != [] {
      var last := |calendar| - 1;
      var before := calendar[..last];
      TradingMeans(before, d);
      if i :| TradesAt(before, i, d) { assert TradesAt(calendar, i, d); }
      if i :| TradesAt(calendar, i, d) { assert i < last ==> TradesAt(before, i, d); }
      if calendar[last].IsSession() && calendar[last].date == d { assert TradesAt(calendar, last, d); }
    }
  }

  /** A date is a session exactly when its entry is not closed: half days are sessions. */
  lemma TradingExactly(calendar: seq<Session>, d: Date)
    ensures d in Trading(calendar)
            <==> exists session :: session in calendar && session.date == d && session.status != Closed
  {
    hide Trading;
    TradingMeans(calendar, d);
    if session :| session in calendar && session.date == d && session.status != Closed {
      var i :| 0 <= i < |calendar| && calendar[i] == session;
      assert TradesAt(calendar, i, d);
    }
    if i :| TradesAt(calendar, i, d) {
      assert calendar[i] in calendar && calendar[i].status != Closed;
    }
  }

  lemma {:induction false} TradingAscends(calendar: seq<Session>)
    requires Ascending(calendar)
    ensures AscendingDates(Trading(calendar))
    decreases |calendar|
  {
    if calendar != [] {
      var last := |calendar| - 1;
      var dates := Trading(calendar[..last]);
      TradingAscends(calendar[..last]);
      TradingBefore(calendar, last);
      assert Trading(calendar) == dates + (if calendar[last].IsSession() then [calendar[last].date] else []);
    }
  }

  lemma TradingBefore(calendar: seq<Session>, k: nat)
    requires Ascending(calendar) && k < |calendar|
    ensures AllBefore(Trading(calendar[..k]), calendar[k].date)
  {
    var dates := Trading(calendar[..k]);
    forall i | 0 <= i < |dates| ensures dates[i] < calendar[k].date {
      TradingMeans(calendar[..k], dates[i]);
      assert dates[i] in dates;
      var j :| TradesAt(calendar[..k], j, dates[i]);
    }
  }

  /** Where a date is among the sessions; their number when it is not one. */
  function Position(dates: seq<Date>, d: Date): (i: nat)
    ensures i <= |dates| && (i < |dates| ==> dates[i] == d) && (i == |dates| ==> d !in dates)
  {
    if dates == [] then 0
    else if dates[0] == d then 0
    else 1 + Position(dates[1..], d)
  }

  lemma PositionIs(dates: seq<Date>, i: nat)
    requires AscendingDates(dates) && i < |dates|
    ensures Position(dates, dates[i]) == i
  {
  }

  /** The last session whose window of wMax sessions can hold a bar at the date: wMax - 1
      sessions on, or the calendar's last; the date itself when it is not a session. */
  function ReachTo(dates: seq<Date>, at: Date, wMax: nat): Date {
    var i := Position(dates, at);
    if i == |dates| || wMax <= 1 then at
    else if i + wMax - 1 < |dates| then dates[i + wMax - 1]
    else dates[|dates| - 1]
  }

  lemma {:induction false} TradingPrefix(calendar: seq<Session>, k: nat)
    requires k <= |calendar|
    ensures Trading(calendar[..k]) <= Trading(calendar)
    decreases |calendar|
  {
    if k < |calendar| {
      TradingPrefix(calendar[..|calendar| - 1], k);
      assert calendar[..|calendar| - 1][..k] == calendar[..k];
    } else {
      assert calendar[..k] == calendar;
    }
  }

  lemma TradingStep(calendar: seq<Session>, k: nat)
    requires k < |calendar|
    ensures Trading(calendar[..k + 1])
            == Trading(calendar[..k]) + (if calendar[k].IsSession() then [calendar[k].date] else [])
  {
    assert calendar[..k + 1][..k] == calendar[..k];
  }

  /** What the loop knows after the first k dates: where it has reached, and how many
      sessions it may still go. */
  ghost predicate Reaching(dates: seq<Date>, at: Date, wMax: nat, to: Date, remaining: int, found: bool) {
    && (found <==> at in dates)
    && (!found ==> to == at && remaining == wMax - 1 && forall d :: d in dates ==> d < at)
    && (found ==>
          var i := Position(dates, at);
          var steps := |dates| - 1 - i;
          && (steps == 0 ==> to == at && remaining == wMax - 1)
          && (steps > 0 ==> to == dates[|dates| - 1] && remaining == wMax - 1 - steps && remaining >= 0))
  }

  lemma PassedOver(dates: seq<Date>, at: Date, wMax: nat, to: Date, remaining: int, found: bool, d: Date)
    requires Reaching(dates, at, wMax, to, remaining, found) && d < at
    requires AllBefore(dates, d)
    ensures Reaching(dates + [d], at, wMax, to, remaining, found)
  {
    assert forall i :: 0 <= i < |dates| ==> dates[i] != at;
  }

  lemma Met(dates: seq<Date>, at: Date, wMax: nat, to: Date, remaining: int, found: bool)
    requires Reaching(dates, at, wMax, to, remaining, found) && AscendingDates(dates + [at])
    requires AllBefore(dates, at)
    ensures Reaching(dates + [at], at, wMax, to, remaining, true)
  {
    assert forall i :: 0 <= i < |dates| ==> dates[i] != at;
    assert (dates + [at])[|dates|] == at;
    PositionIs(dates + [at], |dates|);
  }

  lemma Advanced(dates: seq<Date>, at: Date, wMax: nat, to: Date, remaining: int, d: Date)
    requires Reaching(dates, at, wMax, to, remaining, true) && AscendingDates(dates + [d]) && remaining > 0
    ensures Reaching(dates + [d], at, wMax, d, remaining - 1, true)
  {
    var i := Position(dates, at);
    assert (dates + [d])[i] == at;
    PositionIs(dates + [d], i);
  }

  /** AffectedRange as the loop computes it: closed dates take no step, earlier dates are
      passed over, and a date the calendar does not know reaches only itself. */
  method AffectedRange(calendar: seq<Session>, at: Date, wMax: nat) returns (to: Date)
    requires Ascending(calendar)
    ensures to == ReachTo(Trading(calendar), at, wMax)
  {
    hide Reaching, Ascending, ReachTo, AscendingDates, Trading, AllBefore;
    to := at;
    var remaining: int := wMax - 1;
    var found := false;
    ReachingStarts(at, wMax);
    assert calendar[..0] == [];
    for k := 0 to |calendar|
      invariant Reaching(Trading(calendar[..k]), at, wMax, to, remaining, found)
    {
      var session := calendar[k];
      ghost var dates := Trading(calendar[..k]);
      TradingStep(calendar, k);
      assert dates + [] == dates;
      TradingBefore(calendar, k);
      AscendsThrough(calendar, k + 1);
      if session.status == Closed || session.date < at {
        if session.status != Closed { PassedOver(dates, at, wMax, to, remaining, found, session.date); }
        continue;
      }
      if session.date == at {
        Met(dates, at, wMax, to, remaining, found);
        found := true;
        continue;
      }
      if !found || remaining <= 0 {
        AscendsThrough(calendar, |calendar|);
        assert calendar[..|calendar|] == calendar;
        TradingPrefix(calendar, k + 1);
        StopsHere(dates, Trading(calendar), at, wMax, to, remaining, found, session.date);
        return;
      }
      Advanced(dates, at, wMax, to, remaining, session.date);
      to := session.date;
      remaining := remaining - 1;
    }
    assert calendar[..|calendar|] == calendar;
    ReachingEnds(Trading(calendar), at, wMax, to, remaining, found);
  }

  lemma ReachingStarts(at: Date, wMax: nat)
    ensures Reaching(Trading([]), at, wMax, at, wMax - 1, false)
  {
  }

  lemma ReachingEnds(dates: seq<Date>, at: Date, wMax: nat, to: Date, remaining: int, found: bool)
    requires Reaching(dates, at, wMax, to, remaining, found)
    ensures to == ReachTo(dates, at, wMax)
  {
  }

  lemma AscendsThrough(calendar: seq<Session>, k: nat)
    requires Ascending(calendar) && k <= |calendar|
    ensures AscendingDates(Trading(calendar[..k]))
  {
    TradingAscends(calendar[..k]);
  }

  /** Past the date without having met it, or with no step left, nothing later matters. */
  lemma StopsHere(before: seq<Date>, all: seq<Date>, at: Date, wMax: nat, to: Date, remaining: int, found: bool,
                  next: Date)
    requires AscendingDates(all) && Reaching(before, at, wMax, to, remaining, found)
    requires before + [next] <= all && next > at && (!found || remaining <= 0)
    ensures to == ReachTo(all, at, wMax)
  {
    if found {
      var i := Position(before, at);
      assert all[i] == before[i] == at;
      PositionIs(all, i);
    } else {
      assert forall j :: 0 <= j < |before| ==> all[j] == before[j] && before[j] in before;
      assert all[|before|] == next && forall j :: |before| <= j < |all| ==> all[j] >= next;
      assert at !in all;
    }
  }
}
