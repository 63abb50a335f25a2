/** Invalidated keys collected into few requests, with at most one request running. */
module Coalesce {
  import opened Prelude

  type Key = string

  /** What has happened: a key noted, a request started with some keys, a request ended. */
  datatype Entry = Noted(key: Key) | Started(keys: set<Key>) | Ended

  datatype State = State(pending: set<Key>, timer: bool, inFlight: bool, cancelled: bool, log: seq<Entry>)

  const IDLE := State({}, false, false, false, [])

  /** Add notes a key; Fire is the timer going off; Finish is the request ending, either way. */
  datatype Action = Add(key: Key) | Fire | Finish | Cancel

  function Scheduled(s: State): State {
    if s.timer || s.cancelled then s else s.(timer := true)
  }

  function Flushed(s: State): State {
    if s.cancelled then s
    else if s.inFlight then Scheduled(s)
    else if s.pending == {} then s
    else s.(pending := {}, inFlight := true, log := s.log + [Started(s.pending)])
  }

  /** A timer that is not set does not fire, and a request that is not running does not end. */
  function Step(s: State, action: Action): State {
    match action
    case Add(key) =>
      if s.cancelled then s else Scheduled(s.(pending := s.pending + {key}, log := s.log + [Noted(key)]))
    case Fire => if s.timer then Flushed(s.(timer := false)) else s
    case Finish =>
      if !s.inFlight then s
      else
        var done := s.(inFlight := false, log := s.log + [Ended]);
        if done.pending != {} then Scheduled(done) else done
    case Cancel => s.(cancelled := true, timer := false, pending := {})
  }

  function Run(s: State, actions: seq<Action>): State {
    if actions == [] then s else Step(Run(s, actions[..|actions| - 1]), actions[|actions| - 1])
  }

  /** The closure's variables, as its callbacks change them. */
  class Coalescer {
    var pending: set<Key>
    var timer: bool
    var inFlight: bool
    var cancelled: bool
    ghost var log: seq<Entry>

    ghost function Now(): State reads this {
      State(pending, timer, inFlight, cancelled, log)
    }

    constructor ()
      ensures Now() == IDLE
    {
      pending, timer, inFlight, cancelled, log := {}, false, false, false, [];
    }

    method Schedule()
      modifies this
      ensures Now() == Scheduled(old(Now()))
    {
      if timer || cancelled {
        return;
      }
      timer := true;
    }

    method AddKey(key: Key)
      modifies this
      ensures Now() == Step(old(Now()), Add(key))
    {
      if cancelled {
        return;
      }
      pending := pending + {key};
      log := log + [Noted(key)];
      Schedule();
    }

    /** The timer's callback; the keys are what the request is started with, if one is. */
    method OnTimer() returns (keys: Option<set<Key>>)
      requires timer
      modifies this
      ensures Now() == Step(old(Now()), Fire)
      ensures keys == if log == old(log) then None else Some(old(pending))
    {
      timer := false;
      if cancelled {
        return None;
      }
      if inFlight {
        Schedule();
        return None;
      }
      if pending == {} {
        return None;
      }
      keys := Some(pending);
      log := log + [Started(pending)];
      pending := {};
      inFlight := true;
    }

    method OnSettled()
      requires inFlight
      modifies this
      ensures Now() == Step(old(Now()), Finish)
    {
      inFlight := false;
      log := log + [Ended];
      if pending != {} {
        Schedule();
      }
    }

    method CancelAll()
      modifies this
      ensures Now() == Step(old(Now()), Cancel)
    {
      cancelled := true;
      timer := false;
      pending := {};
    }
  }

  // ---- What every step keeps ------------------------------------------------------------------

  function Change(e: Entry): int {
    if e.Started? then 1 else if e.Ended? then -1 else 0
  }

  /** Requests started and not yet ended. */
  function Running(log: seq<Entry>): int {
    if log == [] then 0
    else Running(log[..|log| - 1]) + Change(log[|log| - 1])
  }

  /** The requests a key was handed to since it was last noted. */
  function HandedSince(log: seq<Entry>, key: Key): nat {
    if log == [] then 0
    else
      After(HandedSince(log[..|log| - 1], key), log[|log| - 1], key)
  }

  function After(handed: nat, e: Entry, key: Key): nat {
    if e == Noted(key) then 0 else if e.Started? && key in e.keys then handed + 1 else handed
  }

  ghost predicate EverNoted(log: seq<Entry>, key: Key) {
    Noted(key) in log
  }

  lemma LogAppend(log: seq<Entry>, e: Entry, key: Key)
    ensures Running(log + [e]) == Running(log) + Change(e)
    ensures HandedSince(log + [e], key) == After(HandedSince(log, key), e, key)
    ensures EverNoted(log + [e], key) <==> EverNoted(log, key) || e == Noted(key)
  {
    assert (log + [e])[..|log|] == log;
  }

  /** A key is pending, or was handed to exactly one request since it was last noted, or was never noted. */
  ghost predicate KeySound(s: State, key: Key) {
    && HandedSince(s.log, key) <= 1
    && (key in s.pending ==> EverNoted(s.log, key) && HandedSince(s.log, key) == 0)
    && (!s.cancelled && EverNoted(s.log, key) && key !in s.pending ==> HandedSince(s.log, key) == 1)
    && (!EverNoted(s.log, key) ==> HandedSince(s.log, key) == 0)
  }

  ghost predicate Sound(s: State) {
    && Running(s.log) == (if s.inFlight then 1 else 0)
    && (s.cancelled ==> s.pending == {} && !s.timer)
    && (s.pending != {} ==> s.timer || s.inFlight)
    && forall key :: KeySound(s, key)
  }

  lemma StepSound(s: State, action: Action)
    requires Sound(s)
    ensures Sound(Step(s, action))
  {
    hide Running, HandedSince, EverNoted;
    var s' := Step(s, action);
    LogAppend(s.log, Ended, "");
    LogAppend(s.log, Started(s.pending), "");
    forall key ensures KeySound(s', key) {
      assert KeySound(s, key);
      LogAppend(s.log, Ended, key);
      LogAppend(s.log, Started(s.pending), key);
      if action.Add? { LogAppend(s.log, Noted(action.key), key); }
    }
    if action.Add? { LogAppend(s.log, Noted(action.key), ""); }
  }

  lemma {:induction false} RunSound(actions: seq<Action>)
    ensures Sound(Run(IDLE, actions))
  {
    if actions != [] {
      RunSound(actions[..|actions| - 1]);
      hide Sound, Step;
      StepSound(Run(IDLE, actions[..|actions| - 1]), actions[|actions| - 1]);
    }
  }

  // ---- What that gives every run --------------------------------------------------------------

  /** At most one request runs at a time: before every start, all earlier ones had ended. */
  lemma OneInFlight(actions: seq<Action>)
    ensures 0 <= Running(Run(IDLE, actions).log) <= 1
  {
    RunSound(actions);
  }

  /** Unless everything was cancelled, a noted key is pending or was handed to exactly one
      request since; and pending keys have a timer or a running request behind them. */
  lemma NoKeyIsLost(actions: seq<Action>, key: Key)
    ensures var s := Run(IDLE, actions);
            && (EverNoted(s.log, key) && !s.cancelled ==> HandedSince(s.log, key) == if key in s.pending then 0 else 1)
            && HandedSince(s.log, key) <= 1
            && (s.pending != {} ==> s.timer || s.inFlight)
  {
    RunSound(actions);
    hide Run;
    assert KeySound(Run(IDLE, actions), key);
  }

  /** Nothing is noted or started after a cancel, whatever happens next. */
  lemma {:induction false} CancelStops(s: State, actions: seq<Action>)
    requires Sound(s) && s.cancelled
    ensures var later := Run(s, actions);
            && later.cancelled && later.pending == {} && !later.timer
            && later.log == s.log + (if s.inFlight && !later.inFlight then [Ended] else [])
            && (later.inFlight ==> s.inFlight)
  {
    if actions != [] {
      CancelStops(s, actions[..|actions| - 1]);
    } else {
      assert s.log + [] == s.log;
    }
  }

  /** Left alone, the timer, the running request and one more timer hand over all that is pending. */
  lemma PendingIsHandedOver(actions: seq<Action>)
    ensures Run(IDLE, actions + [Fire, Finish, Fire]).pending == {}
  {
    RunSound(actions);
    var more := actions + [Fire, Finish, Fire];
    assert more[..|more| - 1] == actions + [Fire, Finish]
      && (actions + [Fire, Finish])[..|actions| + 1] == actions + [Fire]
        && (actions + [Fire])[..|actions|] == actions;
    hide Run;
    RunMore(actions, Fire);
    RunMore(actions + [Fire], Finish);
    RunMore(actions + [Fire, Finish], Fire);
    assert actions + [Fire] + [Finish] == actions + [Fire, Finish] && actions + [Fire, Finish] + [Fire] == more;
  }

  /** A key added before any cancel is noted and pending, and after one timer, the end of the
      running request and one more timer it has been handed to exactly one request. */
  lemma AddedIsHandedOver(actions: seq<Action>, key: Key)
    requires forall action :: action in actions ==> action != Cancel
    ensures var s := Run(IDLE, actions + [Add(key)]);
            s.log == Run(IDLE, actions).log + [Noted(key)] && s.pending == Run(IDLE, actions).pending + {key}
    ensures HandedSince(Run(IDLE, actions + [Add(key)] + [Fire, Finish, Fire]).log, key) == 1
  {
    hide Run;
    var added := actions + [Add(key)];
    NotCancelled(actions);
    RunMore(actions, Add(key));
    PendingIsHandedOver(added);
    assert added + [Fire, Finish, Fire] == added + [Fire] + [Finish] + [Fire];
    RunMore(added, Fire);
    RunMore(added + [Fire], Finish);
    RunMore(added + [Fire] + [Finish], Fire);
    NoKeyIsLost(added + [Fire, Finish, Fire], key);
    StillNoted(Run(IDLE, added), Fire, key);
    StillNoted(Run(IDLE, added + [Fire]), Finish, key);
    StillNoted(Run(IDLE, added + [Fire] + [Finish]), Fire, key);
  }

  lemma StillNoted(s: State, action: Action, key: Key)
    requires EverNoted(s.log, key) && !s.cancelled && action != Cancel
    ensures EverNoted(Step(s, action).log, key) && !Step(s, action).cancelled
  {
  }

  lemma {:induction false} NotCancelled(actions: seq<Action>)
    requires forall action :: action in actions ==> action != Cancel
    ensures !Run(IDLE, actions).cancelled
  {
    if actions != [] {
      var last := |actions| - 1;
      assert actions[last] in actions && forall action :: action in actions[..last] ==> action in actions;
      NotCancelled(actions[..last]);
    }
  }

  lemma RunMore(actions: seq<Action>, action: Action)
    ensures Run(IDLE, actions + [action]) == Step(Run(IDLE, actions), action)
  {
    assert (actions + [action])[..|actions|] == actions;
  }
}
