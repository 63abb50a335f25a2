/** What a client of the stream can count on: where it starts, what it is told first, whose events
    it is told, and that a refusal is final. */
module StreamPromises {
  import opened Prelude
  import opened EventStream

  // ---- Where a stream starts ------------------------------------------------------------------

  lemma RunMore(p: Parties, log: Log, actions: seq<Action>, action: Action)
    ensures Run(p, log, actions + [action]) == Step(p, Run(p, log, actions), action)
  {
    hide Step;
    assert (actions + [action])[..|actions|] == actions;
  }

  /** The last id it was told, or the end of the log for a client that was told nothing. */
  function StartOf(w: World): Id {
    if w.client.delivered == [] then Head(w.log) else w.client.delivered[|w.client.delivered| - 1].id
  }

  /** Nothing takes the source away. */
  ghost predicate Steady(actions: seq<Action>) {
    forall action :: action in actions ==> !action.Fail? && !action.Stop? && action != SetOnline(false)
  }

  ghost predicate Telling(p: Parties, w: World, told: seq<Event>, at: Id) {
    match w.client.source
    case Some(Streaming(read, _, _, _)) =>
      at <= read && w.client.delivered == told + Visible(w.log, p.audience, at, read)
    case _ => false
  }

  /** Once its stream is accepted, a client is told exactly the visible events past where it
      starts, from the next one on: past the last it was told, or past the end of the log if it
      was told nothing. */
  lemma {:induction false} ToldFromStart(p: Parties, log: Log, before: seq<Action>, rest: seq<Action>)
    requires p.Agree() && Ordered(log) && Steady(rest)
    requires var v := Run(p, log, before); v.client.source.Some? && v.client.source.value.Opening?
    ensures var v := Run(p, log, before);
            Telling(p, Run(p, log, before + [Accept] + rest), v.client.delivered, StartOf(v))
  {
    hide Run, Telling;
    var v := Run(p, log, before);
    if rest == [] {
      assert before + [Accept] + rest == before + [Accept];
      RunMore(p, log, before, Accept);
      RunSound(p, log, before);
      AcceptedTells(p, v);
    } else {
      var last := |rest| - 1;
      assert forall action :: action in rest[..last] ==> action in rest;
      ToldFromStart(p, log, before, rest[..last]);
      var actions := before + [Accept] + rest[..last];
      assert before + [Accept] + rest == actions + [rest[last]];
      RunMore(p, log, actions, rest[last]);
      RunSound(p, log, actions);
      StepTells(p, Run(p, log, actions), v.client.delivered, StartOf(v), rest[last]);
    }
  }

  lemma AcceptedTells(p: Parties, v: World)
    requires Sound(p, v) && v.client.source.Some? && v.client.source.value.Opening?
    ensures Telling(p, Step(p, v, Accept), v.client.delivered, StartOf(v))
  {
    hide Replay, Audible, Authorized;
    HeadIsLast(v.log);
    var at := StartOf(v);
    NothingBetween(v.log, p.audience, at);
    NothingAudible();
    if v.client.delivered != [] { LastIsPositive(p, v); }
  }

  lemma NothingAudible()
    ensures Audible([]) == []
  {
  }

  lemma LastIsPositive(p: Parties, v: World)
    requires Sound(p, v) && v.client.delivered != []
    ensures v.client.last == Some(v.client.delivered[|v.client.delivered| - 1].id) && v.client.last.value >= 1
  {
    hide Visible, ChannelSound;
    var d := v.client.delivered;
    VisibleOrdered(v.log, p.audience, d[0].id - 1, v.client.last.value);
  }

  lemma StepTells(p: Parties, w: World, told: seq<Event>, at: Id, action: Action)
    requires p.Agree() && Sound(p, w) && Telling(p, w, told, at)
    requires !action.Fail? && !action.Stop? && action != SetOnline(false)
    ensures Telling(p, Step(p, w, action), told, at)
  {
    hide Replay, Audible, Authorized, DeliveredSound;
    var channel := w.client.source.value;
    match action {
      case Commit(e) =>
        if e.id > Head(w.log) { ReplayKept(w.log, e, p.audience, at, channel.read); }
      case Receive =>
        if channel.wire != [] { ReceiveTells(p, w, told, at); }
      case _ =>
    }
  }

  lemma ReceiveTells(p: Parties, w: World, told: seq<Event>, at: Id)
    requires p.Agree() && Sound(p, w) && Telling(p, w, told, at) && w.client.source.value.wire != []
    ensures Telling(p, Step(p, w, Receive), told, at)
  {
    hide Replay, Audible, Authorized, DeliveredSound, Accepts, Listened;
    var channel := w.client.source.value;
    var e := channel.wire[0];
    NeverSuppressed(p, w);
    ReplayTakes(w.log, p.audience, channel.read, channel.after, 1);
    assert channel.wire[..1] == [e];
    OneAudible(e);
    VisibleSplits(w.log, p.audience, at, channel.read, e.id);
    if !Listened(e) { assert Visible(w.log, p.audience, at, channel.read) + []
      == Visible(w.log, p.audience, at, channel.read); }
  }

  /** And a client that was told nothing is never told an event that was in the log when its
      stream was accepted, whatever happens after: drops, stops and starts included. */
  lemma {:induction false} NothingFromBefore(p: Parties, log: Log, before: seq<Action>, rest: seq<Action>)
    requires p.Agree() && Ordered(log)
    requires var v := Run(p, log, before);
             v.client.source.Some? && v.client.source.value.Opening? && v.client.delivered == []
    ensures Past(Run(p, log, before + [Accept] + rest), Head(Run(p, log, before).log))
  {
    hide Run, Past;
    var h := Head(Run(p, log, before).log);
    if rest == [] {
      assert before + [Accept] + rest == before + [Accept];
      RunMore(p, log, before, Accept);
      RunSound(p, log, before);
      AcceptedPast(p, Run(p, log, before));
    } else {
      var last := |rest| - 1;
      NothingFromBefore(p, log, before, rest[..last]);
      var actions := before + [Accept] + rest[..last];
      assert before + [Accept] + rest == actions + [rest[last]];
      RunMore(p, log, actions, rest[last]);
      RunSound(p, log, actions);
      StepPast(p, Run(p, log, actions), h, rest[last]);
    }
  }

  /** All it was told is past an id, and so is where a stream of a client told nothing reads. */
  ghost predicate Past(w: World, h: Id) {
    && h <= Head(w.log) && (forall e :: e in w.client.delivered ==> e.id > h)
    && (w.client.delivered == [] && w.client.source.Some? && w.client.source.value.Streaming? ==>
          w.client.source.value.read >= h)
  }

  lemma AcceptedPast(p: Parties, v: World)
    requires Sound(p, v) && v.client.source.Some? && v.client.source.value.Opening? && v.client.delivered == []
    ensures Past(Step(p, v, Accept), Head(v.log))
  {
    hide Visible;
  }

  lemma StepPast(p: Parties, w: World, h: Id, action: Action)
    requires p.Agree() && Sound(p, w) && Past(w, h)
    ensures Past(Step(p, w, action), h)
  {
    hide Visible, Replay, Audible, Batch, Accepts, Listened, Sound;
    if action.Receive? {
      ReceivePast(p, w, h);
    } else if action.Accept? {
      AcceptPast(p, w, h);
    } else if action.Fetch? || action.Write? {
      ServePast(p, w, h, action);
    } else {
      hide Served, Received;
    }
  }

  lemma AcceptPast(p: Parties, w: World, h: Id)
    requires Sound(p, w) && Past(w, h)
    ensures Past(Step(p, w, Accept), h)
  {
    hide Visible, Replay;
    HeadIsLast(w.log);
  }

  lemma ServePast(p: Parties, w: World, h: Id, action: Action)
    requires Past(w, h) && (action.Fetch? || action.Write?)
    ensures Past(Step(p, w, action), h)
  {
    hide Batch;
  }

  lemma ReceivePast(p: Parties, w: World, h: Id)
    requires Sound(p, w) && Past(w, h)
    ensures Past(Step(p, w, Receive), h)
  {
    hide Sound, Accepts, Listened;
    if w.client.source.Some? && w.client.source.value.Streaming? && w.client.source.value.wire != [] {
      NextIsPast(p, w, h);
    }
  }

  lemma NextIsPast(p: Parties, w: World, h: Id)
    requires Sound(p, w) && Past(w, h)
    requires w.client.source.Some? && w.client.source.value.Streaming? && w.client.source.value.wire != []
    ensures w.client.source.value.wire[0].id > h
  {
    hide Replay, Visible, Authorized;
    var channel, d := w.client.source.value, w.client.delivered;
    ReplayIn(w.log, p.audience, channel.read, channel.after);
    assert channel.wire[0] in channel.wire;
    if d != [] { assert d[|d| - 1] in d; }
  }

  /** A negative id opens no stream. */
  lemma NegativeOpensNothing(p: Parties, w: World, id: Id)
    requires w.client.source == Some(Opening(Some(id))) && id < 0
    ensures Step(p, w, Accept) == w
  {
  }

  // ---- One query ------------------------------------------------------------------------------

  ghost predicate MaySee(audience: Audience, e: Event) {
    e.scope == Shared || (e.scope == Private && e.subject == Some(audience.user))
    || (e.scope == OwnerOnly && audience.role == Owner)
  }

  /** What the audience may see of a log between two ids, the second left out. */
  ghost function Ahead(log: Log, audience: Audience, after: Id, e: Event): set<Event> {
    set x | x in log && after < x.id < e.id && MaySee(audience, x)
  }

  /** A query returns what the audience may see after an id, but for what more than its limit is ahead of. */
  lemma BatchMeans(log: Log, audience: Audience, after: Id, limit: nat, e: Event)
    requires Ordered(log)
    ensures e in Batch(log, audience, after, limit)
       <==> e in log && e.id > after && MaySee(audience, e) && |Ahead(log, audience, after, e)| < limit
    ensures Ordered(Batch(log, audience, after, limit))
  {
    hide Replay;
    var left := Replay(log, audience, after, Head(log));
    ReplayIn(log, audience, after, Head(log));
    HeadIsLast(log);
    if e in left {
      var i :| 0 <= i < |left| && left[i] == e;
      AheadIsBefore(log, audience, after, left, i);
      assert e in left[..Least(limit, |left|)] <==> i < limit;
    } else {
      assert forall x :: x in left[..Least(limit, |left|)] ==> x in left;
    }
  }

  lemma AheadIsBefore(log: Log, audience: Audience, after: Id, left: seq<Event>, i: nat)
    requires Ordered(log) && left == Replay(log, audience, after, Head(log)) && i < |left|
    ensures |Ahead(log, audience, after, left[i])| == i
  {
    hide Replay;
    ReplayIn(log, audience, after, Head(log));
    HeadIsLast(log);
    var first := left[..i];
    forall x ensures x in Ahead(log, audience, after, left[i]) <==> x in first {
      if x in Ahead(log, audience, after, left[i]) {
        assert x in left;
        var j :| 0 <= j < |left| && left[j] == x;
        assert j < i ==> first[j] == x;
      }
      if x in first {
        var j :| 0 <= j < i && first[j] == x;
        assert left[j] in left;
      }
    }
    SetOfDistinct(first);
    assert Ahead(log, audience, after, left[i]) == Elements(first);
  }

  ghost function Elements(events: seq<Event>): set<Event> {
    set x | x in events
  }

  lemma ElementsAppend(events: seq<Event>, e: Event)
    ensures Elements(events + [e]) == Elements(events) + {e}
  {
  }

  lemma {:induction false} SetOfDistinct(events: seq<Event>)
    requires Ordered(events)
    ensures |Elements(events)| == |events|
  {
    if events != [] {
      var last := |events| - 1;
      OrderedRest(events);
      assert events == events[..last] + [events[last]] && events[last] !in Elements(events[..last]);
      hide Ordered, Elements;
      SetOfDistinct(events[..last]);
      ElementsAppend(events[..last], events[last]);
    }
  }

  // ---- Whose events ---------------------------------------------------------------------------

  /** What is visible: what anybody may see, what is the user's own, and to an owner what is the
      owners', of the kinds listened for. */
  lemma VisibleMeans(log: Log, audience: Audience, after: Id, through: Id, e: Event)
    requires Ordered(log)
    ensures e in Visible(log, audience, after, through)
       <==> && e in log && after < e.id <= through && (e.kind in EVENT_TYPES || e.kind == "message")
            && (e.scope == Shared || (e.scope == Private && e.subject == Some(audience.user))
                || (e.scope == OwnerOnly && audience.role == Owner))
  {
    hide Replay, Audible;
    ReplayIn(log, audience, after, through);
    AudibleIn(Replay(log, audience, after, through));
  }

  /** A client is told nothing else, over any run. */
  lemma ToldOnlyOwn(p: Parties, log: Log, actions: seq<Action>, e: Event)
    requires p.Agree() && Ordered(log) && e in Run(p, log, actions).client.delivered
    ensures e in Run(p, log, actions).log
    ensures e.scope == Shared || (e.scope == Private && e.subject == Some(p.audience.user))
            || (e.scope == OwnerOnly && p.audience.role == Owner)
  {
    RunSound(p, log, actions);
    hide Run, Visible, ChannelSound, Ordered;
    var w := Run(p, log, actions);
    VisibleMeans(w.log, p.audience, w.client.delivered[0].id - 1, w.client.last.value, e);
  }

  /** And whatever a server might send it, a client that knows who it is turns away owners' events
      as a member, and private ones of anybody else. */
  lemma {:induction false} TurnsAway(p: Parties, log: Log, actions: seq<Action>, e: Event)
    requires e in Run(p, log, actions).client.delivered
    ensures p.viewer.role == Some(Member) ==> e.scope != OwnerOnly
    ensures p.viewer.user.Some? && e.scope == Private ==> e.subject == p.viewer.user
  {
    if actions != [] {
      var last := |actions| - 1;
      assert actions == actions[..last] + [actions[last]];
      RunMore(p, log, actions[..last], actions[last]);
      hide Run;
      if e in Run(p, log, actions[..last]).client.delivered {
        TurnsAway(p, log, actions[..last], e);
      } else {
        NewlyTold(p, Run(p, log, actions[..last]), actions[last], e);
      }
    }
  }

  lemma NewlyTold(p: Parties, w: World, action: Action, e: Event)
    requires e in Step(p, w, action).client.delivered && e !in w.client.delivered
    ensures !(p.viewer.role == Some(Member) && e.scope == OwnerOnly)
    ensures p.viewer.user.Some? && e.scope == Private ==> e.subject == p.viewer.user
  {
    hide Batch;
  }

  /** The ids remembered are those of the last two hundred events told, or of all. */
  ghost predicate RemembersTail(c: Client) {
    && |c.seen| == (if |c.delivered| < SEEN_LIMIT then |c.delivered| else SEEN_LIMIT)
    && forall i :: 0 <= i < |c.seen| ==> c.seen[i] == c.delivered[|c.delivered| - |c.seen| + i].id
  }

  lemma {:induction false} MemoryIsTheTail(p: Parties, log: Log, actions: seq<Action>)
    ensures RemembersTail(Run(p, log, actions).client)
  {
    if actions != [] {
      var last := |actions| - 1;
      assert actions == actions[..last] + [actions[last]];
      RunMore(p, log, actions[..last], actions[last]);
      hide Run;
      MemoryIsTheTail(p, log, actions[..last]);
      StepRemembers(p, Run(p, log, actions[..last]), actions[last]);
    }
  }

  lemma StepRemembers(p: Parties, w: World, action: Action)
    requires RemembersTail(w.client)
    ensures RemembersTail(Step(p, w, action).client)
  {
    hide Batch, Accepts, Listened, RemembersTail, Heard, Served;
    var source, next := w.client.source, Step(p, w, action).client;
    if action.Receive? && source.Some? && source.value.Streaming? && source.value.wire != [] {
      HeardRemembers(w.client, p.viewer, source.value.wire[0]);
      SameMemory(Heard(w.client, p.viewer, source.value.wire[0]), next);
    } else {
      SameMemory(w.client, next);
    }
  }

  lemma SameMemory(c: Client, c': Client)
    requires RemembersTail(c) && c'.seen == c.seen && c'.delivered == c.delivered
    ensures RemembersTail(c')
  {
  }

  lemma HeardRemembers(c: Client, viewer: Viewer, e: Event)
    requires RemembersTail(c)
    ensures RemembersTail(Heard(c, viewer, e))
  {
    hide Accepts, Listened;
  }

  // ---- Only while it runs ---------------------------------------------------------------------

  ghost predicate OnlyRunning(c: Client) {
    c.source.Some? || c.timer ==> c.running && c.online
  }

  /** Over any run a client has a stream, or a timer for one, only while it is running and online. */
  lemma {:induction false} OnlyWhileRunning(p: Parties, log: Log, actions: seq<Action>)
    ensures OnlyRunning(Run(p, log, actions).client)
  {
    if actions != [] {
      var last := |actions| - 1;
      assert actions == actions[..last] + [actions[last]];
      RunMore(p, log, actions[..last], actions[last]);
      hide Run;
      OnlyWhileRunning(p, log, actions[..last]);
      StepOnlyRunning(p, Run(p, log, actions[..last]), actions[last]);
    }
  }

  lemma StepOnlyRunning(p: Parties, w: World, action: Action)
    requires OnlyRunning(w.client)
    ensures OnlyRunning(Step(p, w, action).client)
  {
    hide Batch, Accepts, Listened, Remembered;
  }

  // ---- A refusal is final ---------------------------------------------------------------------

  ghost predicate Ended(c: Client) {
    !c.running && c.source.None? && !c.timer
  }

  /** After a refusal, or a stop, nothing reconnects until the client is started again. */
  lemma {:induction false} RefusalIsFinal(p: Parties, log: Log, before: seq<Action>, end: Action, rest: seq<Action>)
    requires end == Stop || (end == Fail(true) && Run(p, log, before).client.source.Some?)
    requires forall action :: action in rest ==> !action.Start?
    ensures Ended(Run(p, log, before + [end] + rest).client)
    ensures Run(p, log, before + [end] + rest).client.delivered == Run(p, log, before).client.delivered
  {
    hide Run;
    if rest == [] {
      assert before + [end] + rest == before + [end];
      RunMore(p, log, before, end);
    } else {
      var last := |rest| - 1;
      assert rest[last] in rest && forall action :: action in rest[..last] ==> action in rest;
      RefusalIsFinal(p, log, before, end, rest[..last]);
      assert before + [end] + rest == (before + [end] + rest[..last]) + [rest[last]];
      RunMore(p, log, before + [end] + rest[..last], rest[last]);
      StaysEnded(p, Run(p, log, before + [end] + rest[..last]), rest[last]);
    }
  }

  lemma StaysEnded(p: Parties, w: World, action: Action)
    requires Ended(w.client) && !action.Start?
    ensures Ended(Step(p, w, action).client) && Step(p, w, action).client.delivered == w.client.delivered
  {
  }
}
