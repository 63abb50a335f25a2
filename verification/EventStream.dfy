/** The resumable event stream: a durable log, a replaying server, and a client that drops and resumes. */
module EventStream {
  import opened Prelude

  type Id = int
  type User = string

  datatype Scope = Shared | Private | OwnerOnly
  datatype Role = Owner | Member

  datatype Event = Event(id: Id, kind: string, scope: Scope, subject: Option<User>, entityType: string,
                         entityId: string)

  datatype Audience = Audience(user: User, role: Role)

  type Log = seq<Event>

  // ---- The server -----------------------------------------------------------------------------

  predicate Authorized(audience: Audience, e: Event) {
    match e.scope
    case Shared => true
    case Private => e.subject == Some(audience.user)
    case OwnerOnly => audience.role.Owner?
  }

  /** Ids grow along the log, from one. */
  predicate Ordered(log: Log) {
    (forall i, j :: 0 <= i < j < |log| ==> log[i].id < log[j].id) && forall i :: 0 <= i < |log| ==> log[i].id >= 1
  }

  /** Where a new subscriber starts: the newest id, or zero. */
  function Head(log: Log): Id {
    if log == [] then 0 else log[|log| - 1].id
  }

  /** The audience's events after one id and up to another, in order. */
  function Replay(log: Log, audience: Audience, after: Id, through: Id): seq<Event> {
    if log == [] then []
    else
      var e := log[|log| - 1];
      Replay(log[..|log| - 1], audience, after, through)
      + if after < e.id <= through && Authorized(audience, e) then [e] else []
  }

  function Least(a: nat, b: nat): nat {
    if a < b then a else b
  }

  /** One query: the first few of what is left. */
  function Batch(log: Log, audience: Audience, after: Id, limit: nat): seq<Event> {
    var left := Replay(log, audience, after, Head(log));
    left[..Least(limit, |left|)]
  }

  /** The query, row by row. */
  method ListAuthorized(log: Log, audience: Audience, after: Id, limit: nat)
    returns (result: Result<seq<Event>, string>)
    requires Ordered(log)
    ensures result == if after < 0 || limit < 1 || limit > 1000 then Err("event replay audience or bounds are invalid")
                      else Ok(Batch(log, audience, after, limit))
  {
    if after < 0 || limit < 1 || limit > 1000 {
      return Err("event replay audience or bounds are invalid");
    }
    hide Replay, Authorized, Batch, Head, Ordered;
    var rows: seq<Event> := [];
    var i := 0;
    ReplayNone(audience, after, Head(log));
    assert log[..0] == [];
    while i < |log| && |rows| < limit
      invariant i <= |log| && |rows| <= limit
      invariant rows == Replay(log[..i], audience, after, Head(log))
    {
      ReplayStep(log, i, audience, after, Head(log));
      if log[i].id > after && Authorized(audience, log[i]) {
        rows := rows + [log[i]];
      }
      i := i + 1;
    }
    BatchReached(log, audience, after, limit, i, rows);
    result := Ok(rows);
  }

  lemma BatchReached(log: Log, audience: Audience, after: Id, limit: nat, i: nat, rows: seq<Event>)
    requires i <= |log| && |rows| <= limit && rows == Replay(log[..i], audience, after, Head(log))
    requires i == |log| || |rows| == limit
    ensures rows == Batch(log, audience, after, limit)
  {
    hide Replay, Head;
    ReplayGrows(log, i, audience, after, Head(log));
    assert log[..|log|] == log;
  }

  lemma ReplayNone(audience: Audience, after: Id, through: Id)
    ensures Replay([], audience, after, through) == []
  {
  }

  lemma ReplayStep(log: Log, i: nat, audience: Audience, after: Id, through: Id)
    requires Ordered(log) && i < |log|
    ensures Replay(log[..i + 1], audience, after, through)
         == Replay(log[..i], audience, after, through)
            + if after < log[i].id <= through && Authorized(audience, log[i]) then [log[i]] else []
    ensures log[i].id <= Head(log)
  {
    assert log[..i + 1][..i] == log[..i];
  }

  lemma {:induction false} ReplayGrows(log: Log, i: nat, audience: Audience, after: Id, through: Id)
    requires i <= |log|
    ensures Replay(log[..i], audience, after, through) <= Replay(log, audience, after, through)
  {
    if i == |log| {
      assert log[..i] == log;
    } else {
      ReplayGrows(log[..|log| - 1], i, audience, after, through);
      assert log[..|log| - 1][..i] == log[..i];
    }
  }

  /** Where a stream starts: the id a reconnecting client names, or the head for one that names none. */
  function ResumeAt(resume: Option<Id>, log: Log): Option<Id> {
    match resume
    case None => Some(Head(log))
    case Some(id) => if id < 0 then None else Some(id)
  }

  // ---- The client -----------------------------------------------------------------------------

  const EVENT_TYPES: set<string> := {
    "account.changed.v1", "setup.changed.v1", "credential.changed.v1", "credential.key_rotated.v1",
    "owner.password_reset.v1", "session.created.v1", "session.revoked.v1", "sessions.revoked.v1",
    "daily_bar.changed.v1", "import_item.changed.v1", "import_run.changed.v1", "quality_finding.changed.v1",
    "corporate_action.changed.v1", "market_data_fallback.changed.v1" }

  /** The kinds a source calls the client back for; any other passes it by. */
  predicate Listened(e: Event) {
    e.kind in EVENT_TYPES || e.kind == "message"
  }

  const SEEN_LIMIT: nat := 200

  /** Whose stream the client believes this is. */
  datatype Viewer = Viewer(role: Option<Role>, user: Option<User>)

  /** The client's own check of an envelope. */
  predicate Accepts(viewer: Viewer, e: Event) {
    && !(viewer.role == Some(Member) && e.scope.OwnerOnly?)
    && !(e.scope.Private? && viewer.user.Some? && e.subject != viewer.user)
  }

  /** One source: asked for, or streaming. `read` is the last event taken off the wire,
      `after` the last one the server wrote, `batch` what its last query has left to write. */
  datatype Channel = Opening(resume: Option<Id>)
                   | Streaming(read: Id, after: Id, wire: seq<Event>, batch: seq<Event>)

  datatype Client = Client(running: bool, online: bool, source: Option<Channel>, timer: bool,
                           seen: seq<Id>, last: Option<Id>, delivered: seq<Event>)

  const IDLE := Client(false, true, None, false, [], None, [])

  function Connected(c: Client): Client {
    if !c.running || !c.online || c.source.Some? then c else c.(source := Some(Opening(c.last)))
  }

  function Started(c: Client): Client {
    if c.running then c else Connected(c.(running := true))
  }

  function Stopped(c: Client): Client {
    c.(running := false, source := None, timer := false)
  }

  function Online(c: Client, online: bool): Client {
    if !online then c.(online := false, source := None, timer := false)
    else Connected(c.(online := true))
  }

  /** The source failed: for good when refused, else to be tried again. */
  function Failed(c: Client, refused: bool): Client {
    if c.source.None? then c
    else if refused then c.(source := None, running := false, timer := false)
    else if !c.running || !c.online then c.(source := None)
    else c.(source := None, timer := true)
  }

  function Fired(c: Client): Client {
    if c.timer then Connected(c.(timer := false)) else c
  }

  function Remembered(seen: seq<Id>, id: Id): seq<Id> {
    if |seen + [id]| > SEEN_LIMIT then (seen + [id])[1..] else seen + [id]
  }

  /** One event reaching the client. */
  function Heard(c: Client, viewer: Viewer, e: Event): Client {
    if !Listened(e) || e.id in c.seen || !Accepts(viewer, e) then c
    else c.(seen := Remembered(c.seen, e.id), last := Some(e.id), delivered := c.delivered + [e])
  }

  /** The client as its callbacks change it. */
  class AuthorizedEventStream {
    var running: bool
    var online: bool
    var source: Option<Channel>
    var timer: bool
    var seen: seq<Id>
    var lastEventID: Option<Id>
    ghost var delivered: seq<Event>
    var viewer: Viewer

    ghost function Now(): Client reads this {
      Client(running, online, source, timer, seen, lastEventID, delivered)
    }

    constructor (viewer: Viewer)
      ensures Now() == IDLE && this.viewer == viewer
    {
      running, online, source, timer, seen, lastEventID := false, true, None, false, [], None;
      delivered := [];
      this.viewer := viewer;
    }

    method Start()
      modifies this
      ensures Now() == Started(old(Now())) && viewer == old(viewer)
    {
      if running {
        return;
      }
      running := true;
      if online {
        Connect();
      }
    }

    method Stop()
      modifies this
      ensures Now() == Stopped(old(Now())) && viewer == old(viewer)
    {
      running, source, timer := false, None, false;
    }

    method SetOnline(isOnline: bool)
      modifies this
      ensures Now() == Online(old(Now()), isOnline) && viewer == old(viewer)
    {
      online := isOnline;
      if !isOnline {
        source, timer := None, false;
        return;
      }
      if running && source.None? {
        Connect();
      }
    }

    method Connect()
      modifies this
      ensures Now() == Connected(old(Now())) && viewer == old(viewer)
    {
      if !running || !online || source.Some? {
        return;
      }
      source := Some(Opening(lastEventID));
    }

    method OnError(refused: bool)
      requires source.Some?
      modifies this
      ensures Now() == Failed(old(Now()), refused) && viewer == old(viewer)
    {
      source := None;
      if refused {
        running, timer := false, false;
        return;
      }
      if !running || !online {
        return;
      }
      timer := true;
    }

    method OnTimer()
      requires timer
      modifies this
      ensures Now() == Fired(old(Now())) && viewer == old(viewer)
    {
      timer := false;
      Connect();
    }

    method OnMessage(e: Event) returns (told: bool)
      requires Listened(e)
      modifies this
      ensures Now() == Heard(old(Now()), viewer, e) && viewer == old(viewer)
      ensures told <==> delivered == old(delivered) + [e]
    {
      if e.id in seen || (viewer.role == Some(Member) && e.scope.OwnerOnly?)
         || (e.scope.Private? && viewer.user.Some? && e.subject != viewer.user) {
        return false;
      }
      seen := seen + [e.id];
      lastEventID := Some(e.id);
      if |seen| > SEEN_LIMIT {
        seen := seen[1..];
      }
      delivered := delivered + [e];
      told := true;
    }
  }

  // ---- Both sides, step by step ---------------------------------------------------------------

  datatype World = World(log: Log, client: Client)

  /** Fixed for a run: who the server says this is, and who the client says. */
  datatype Parties = Parties(audience: Audience, viewer: Viewer)
  {
    predicate Agree() {
      (viewer.role.Some? ==> viewer.role.value == audience.role)
        && (viewer.user.Some? ==> viewer.user.value == audience.user)
    }
  }

  datatype Action =
    | Commit(event: Event)
    | Accept
    | Fetch(limit: nat)
    | Write
    | Receive
    | Fail(refused: bool)
    | Fire
    | Start
    | Stop
    | SetOnline(online: bool)

  function OnChannel(w: World, channel: Channel): World {
    w.(client := w.client.(source := Some(channel)))
  }

  /** The server's part on an open channel. */
  function Served(p: Parties, w: World, channel: Channel, action: Action): Channel {
    match channel
    case Opening(resume) =>
      if action.Accept? && ResumeAt(resume, w.log).Some? then
        var at := ResumeAt(resume, w.log).value;
        Streaming(at, at, [], [])
      else channel
    case Streaming(read, after, wire, batch) =>
      if action.Fetch? && batch == [] && 1 <= action.limit <= 1000 then
        channel.(batch := Batch(w.log, p.audience, after, action.limit))
      else if action.Write? && batch != [] then
        Streaming(read, batch[0].id, wire + [batch[0]], batch[1..])
      else channel
  }

  /** An action that cannot happen yet changes nothing. Events are committed in id order. */
  function Step(p: Parties, w: World, action: Action): World {
    match action
    case Commit(e) => if e.id > Head(w.log) then w.(log := w.log + [e]) else w
    case Accept => if w.client.source.None? then w else OnChannel(w, Served(p, w, w.client.source.value, action))
    case Fetch(_) => if w.client.source.None? then w else OnChannel(w, Served(p, w, w.client.source.value, action))
    case Write => if w.client.source.None? then w else OnChannel(w, Served(p, w, w.client.source.value, action))
    case Receive => Received(p, w)
    case Fail(refused) => w.(client := Failed(w.client, refused))
    case Fire => w.(client := Fired(w.client))
    case Start => w.(client := Started(w.client))
    case Stop => w.(client := Stopped(w.client))
    case SetOnline(online) => w.(client := Online(w.client, online))
  }

  /** The first event on the wire reaches the client. */
  function Received(p: Parties, w: World): World {
    match w.client.source
    case Some(Streaming(read, after, wire, batch)) =>
      if wire == [] then w
      else w.(client := Heard(w.client, p.viewer,
           wire[0]).(source := Some(Streaming(wire[0].id, after, wire[1..], batch))))
    case _ => w
  }

  function Run(p: Parties, log: Log, actions: seq<Action>): World {
    if actions == [] then World(log, IDLE) else Step(p, Run(p, log, actions[..|actions| - 1]), actions[|actions| - 1])
  }

  // ---- Replays --------------------------------------------------------------------------------

  lemma {:induction false} ReplayIn(log: Log, audience: Audience, after: Id, through: Id)
    requires Ordered(log)
    ensures Ordered(Replay(log, audience, after, through))
    ensures forall e ::
              e in Replay(log, audience, after, through) <==>
              e in log && after < e.id <= through && Authorized(audience, e)
  {
    hide Authorized, Ordered;
    if log == [] {
      OrderedNone();
    } else {
      var rest, e := log[..|log| - 1], log[|log| - 1];
      OrderedRest(log);
      ReplayIn(rest, audience, after, through);
      var replayed := Replay(rest, audience, after, through);
      OrderedMore(replayed, e);
      assert replayed + [] == replayed;
      assert forall x :: x in log <==> x in rest || x == e;
    }
  }

  /** A replay cut at an id is the replay to it, then the replay from it. */
  lemma {:induction false} ReplaySplits(log: Log, audience: Audience, after: Id, at: Id, through: Id)
    requires Ordered(log) && after <= at <= through
    ensures Replay(log, audience, after, through)
            == Replay(log, audience, after, at) + Replay(log, audience, at, through)
  {
    if log != [] {
      var rest, e := log[..|log| - 1], log[|log| - 1];
      ReplaySplits(rest, audience, after, at, through);
      if e.id <= at {
        NothingAfter(rest, audience, at, through);
      }
    }
  }

  lemma {:induction false} NothingAfter(log: Log, audience: Audience, at: Id, through: Id)
    requires forall i :: 0 <= i < |log| ==> log[i].id <= at
    ensures Replay(log, audience, at, through) == []
  {
    if log != [] { NothingAfter(log[..|log| - 1], audience, at, through); }
  }

  lemma {:induction false} NothingBetween(log: Log, audience: Audience, at: Id)
    ensures Replay(log, audience, at, at) == []
  {
    if log != [] { NothingBetween(log[..|log| - 1], audience, at); }
  }

  /** A later commit is past every replay so far. */
  lemma ReplayKept(log: Log, e: Event, audience: Audience, after: Id, through: Id)
    requires e.id > through
    ensures Replay(log + [e], audience, after, through) == Replay(log, audience, after, through)
  {
    assert (log + [e])[..|log|] == log;
  }

  /** The first of a replay is the whole of it up to its own id. */
  lemma ReplayTakes(log: Log, audience: Audience, after: Id, through: Id, k: nat)
    requires Ordered(log) && 0 < k <= |Replay(log, audience, after, through)|
    ensures var r := Replay(log, audience, after, through);
            && after < r[k - 1].id <= through
            && Replay(log, audience, after, r[k - 1].id) == r[..k]
            && Replay(log, audience, r[k - 1].id, through) == r[k..]
  {
    hide Authorized;
    var r := Replay(log, audience, after, through);
    ReplayIn(log, audience, after, through);
    var at := r[k - 1].id;
    assert r[k - 1] in r;
    var head, tail := Replay(log, audience, after, at), Replay(log, audience, at, through);
    ReplayIn(log, audience, after, at);
    ReplayIn(log, audience, at, through);
    ReplaySplits(log, audience, after, at, through);
    hide Replay;
    SplitAt(r, head, tail, k);
  }

  lemma SplitAt(r: seq<Event>, head: seq<Event>, tail: seq<Event>, k: nat)
    requires r == head + tail && 0 < k <= |r| && Ordered(r)
    requires forall e :: e in head ==> e.id <= r[k - 1].id
    requires forall e :: e in tail ==> e.id > r[k - 1].id
    ensures head == r[..k] && tail == r[k..]
  {
    if |head| > 0 {
      assert head[|head| - 1] in head && r[|head| - 1] == head[|head| - 1];
    }
    if |tail| > 0 {
      assert tail[0] in tail && r[|head|] == tail[0];
    }
    assert |head| == k;
  }

  /** What the client is called back for, of some events. */
  function Audible(events: seq<Event>): seq<Event> {
    if events == [] then []
    else Audible(events[..|events| - 1]) + if Listened(events[|events| - 1]) then [events[|events| - 1]] else []
  }

  lemma {:induction false} AudibleConcat(x: seq<Event>, y: seq<Event>)
    ensures Audible(x + y) == Audible(x) + Audible(y)
    decreases |y|
  {
    if y == [] {
      assert x + y == x;
    } else {
      AudibleConcat(x, y[..|y| - 1]);
      assert (x + y)[..|x + y| - 1] == x + y[..|y| - 1];
    }
  }

  lemma {:induction false} AudibleIn(events: seq<Event>)
    requires Ordered(events)
    ensures Ordered(Audible(events)) && forall e :: e in Audible(events) <==> e in events && Listened(e)
  {
    hide Listened, Ordered;
    if events == [] {
      OrderedNone();
    } else {
      var rest, e := events[..|events| - 1], events[|events| - 1];
      OrderedRest(events);
      AudibleIn(rest);
      OrderedMore(Audible(rest), e);
      assert Audible(rest) + [] == Audible(rest);
      assert forall x :: x in events <==> x in rest || x == e;
    }
  }

  lemma OrderedNone()
    ensures Ordered([])
  {
  }

  lemma OrderedRest(log: Log)
    requires Ordered(log) && log != []
    ensures var rest, e := log[..|log| - 1], log[|log| - 1];
            Ordered(rest) && e.id >= 1 && forall x :: x in rest ==> x.id < e.id
  {
    var last := |log| - 1;
    forall x | x in log[..last] ensures x.id < log[last].id {
      var i :| 0 <= i < last && log[i] == x;
    }
  }

  lemma OrderedMore(log: Log, e: Event)
    requires Ordered(log) && e.id >= 1 && forall x :: x in log ==> x.id < e.id
    ensures Ordered(log + [e])
  {
    assert forall i :: 0 <= i < |log| ==> log[i] in log;
  }

  /** The audience's events the client listens for, after one id and up to another. */
  function Visible(log: Log, audience: Audience, after: Id, through: Id): seq<Event> {
    Audible(Replay(log, audience, after, through))
  }

  // ---- What every step keeps ------------------------------------------------------------------

  /** What was delivered is everything visible from the first of it to the last. */
  ghost predicate DeliveredSound(log: Log, audience: Audience, delivered: seq<Event>, last: Option<Id>, seen: seq<Id>) {
    if delivered == [] then last.None? && seen == []
    else
      && last == Some(delivered[|delivered| - 1].id) && last.value <= Head(log)
      && delivered[0].id <= last.value
      && delivered == Visible(log, audience, delivered[0].id - 1, last.value)
      && forall i :: 0 <= i < |seen| ==> seen[i] <= last.value
  }

  /** The wire carries on where the client stopped reading, the batch where the wire ends,
      and nothing visible was skipped between what was last delivered and what was last read. */
  ghost predicate ChannelSound(log: Log, audience: Audience, last: Option<Id>, channel: Channel) {
    match channel
    case Opening(resume) => resume == last
    case Streaming(read, after, wire, batch) =>
      && 0 <= read <= after <= Head(log)
      && wire == Replay(log, audience, read, after)
      && (batch != [] ==>
            after <= batch[|batch| - 1].id <= Head(log) && batch == Replay(log, audience, after, batch[|batch| - 1].id))
      && (last.Some? ==> last.value <= read && Visible(log, audience, last.value, read) == [])
  }

  /** A running client that is online has a source or a timer. */
  ghost predicate Sound(p: Parties, w: World) {
    && Ordered(w.log)
    && DeliveredSound(w.log, p.audience, w.client.delivered, w.client.last, w.client.seen)
    && (w.client.source.Some? ==> ChannelSound(w.log, p.audience, w.client.last, w.client.source.value))
    && (w.client.running && w.client.online ==> w.client.source.Some? || w.client.timer)
  }

  lemma HeadIsLast(log: Log)
    requires Ordered(log)
    ensures Head(log) >= 0 && forall i :: 0 <= i < |log| ==> log[i].id <= Head(log)
  {
  }

  lemma CommitSound(p: Parties, w: World, e: Event)
    requires Sound(p, w) && e.id > Head(w.log)
    ensures Sound(p, w.(log := w.log + [e]))
  {
    hide Replay, Audible, Authorized;
    var log := w.log + [e];
    HeadIsLast(w.log);
    var c := w.client;
    if c.delivered != [] {
      ReplayKept(w.log, e, p.audience, c.delivered[0].id - 1, c.last.value);
    }
    if c.source.Some? && c.source.value.Streaming? {
      var channel := c.source.value;
      ReplayKept(w.log, e, p.audience, channel.read, channel.after);
      if channel.batch != [] { ReplayKept(w.log, e, p.audience, channel.after, channel.batch[|channel.batch| - 1].id); }
      if c.last.Some? { ReplayKept(w.log, e, p.audience, c.last.value, channel.read); }
    }
  }

  lemma AcceptSound(p: Parties, w: World)
    requires Sound(p, w) && w.client.source.Some? && w.client.source.value.Opening?
    ensures Sound(p, Step(p, w, Accept))
  {
    hide Replay, Authorized;
    HeadIsLast(w.log);
    var at := ResumeAt(w.client.last, w.log);
    if at.Some? {
      NothingBetween(w.log, p.audience, at.value);
    }
  }

  lemma FetchSound(p: Parties, w: World, limit: nat)
    requires Sound(p, w) && w.client.source.Some? && w.client.source.value.Streaming?
    ensures Sound(p, Step(p, w, Fetch(limit)))
  {
    hide Replay, Authorized, Audible;
    var channel := w.client.source.value;
    var left := Replay(w.log, p.audience, channel.after, Head(w.log));
    var k := Least(limit, |left|);
    if k > 0 {
      ReplayTakes(w.log, p.audience, channel.after, Head(w.log), k);
      assert left[..k][k - 1] == left[k - 1];
    }
  }

  lemma WriteSound(p: Parties, w: World)
    requires Sound(p, w) && w.client.source.Some? && w.client.source.value.Streaming?
    ensures Sound(p, Step(p, w, Write))
  {
    hide Replay, Authorized, Audible;
    var channel := w.client.source.value;
    var batch := channel.batch;
    if batch != [] {
      var end := batch[|batch| - 1].id;
      ReplayTakes(w.log, p.audience, channel.after, end, 1);
      assert batch[..1] == [batch[0]];
      ReplaySplits(w.log, p.audience, channel.read, channel.after, batch[0].id);
      if |batch| > 1 {
        assert batch[1..][|batch| - 2] == batch[|batch| - 1];
        ReplayTakes(w.log, p.audience, channel.after, end, |batch|);
      }
    }
  }

  /** The client never turns away an event the server may send it. */
  lemma AuthorizedIsAccepted(p: Parties, e: Event)
    requires p.Agree() && Authorized(p.audience, e)
    ensures Accepts(p.viewer, e)
  {
  }

  /** What is on the wire is new: whatever is remembered never suppresses it. */
  lemma NeverSuppressed(p: Parties, w: World)
    requires p.Agree() && Sound(p, w)
    requires w.client.source.Some? && w.client.source.value.Streaming? && w.client.source.value.wire != []
    ensures var e := w.client.source.value.wire[0];
            e.id !in w.client.seen && Accepts(p.viewer, e)
            && (Listened(e) ==> Heard(w.client, p.viewer, e).delivered == w.client.delivered + [e])
  {
    hide Replay, Authorized, Audible, Accepts;
    var channel := w.client.source.value;
    ReplayIn(w.log, p.audience, channel.read, channel.after);
    assert channel.wire[0] in channel.wire;
    AuthorizedIsAccepted(p, channel.wire[0]);
  }

  lemma ReceiveSound(p: Parties, w: World)
    requires p.Agree() && Sound(p, w)
    requires w.client.source.Some? && w.client.source.value.Streaming? && w.client.source.value.wire != []
    ensures Sound(p, Step(p, w, Receive))
  {
    hide Replay, Authorized, Visible, Accepts, Listened, Ordered;
    var channel, c := w.client.source.value, w.client;
    var e := channel.wire[0];
    NeverSuppressed(p, w);
    ReplayTakes(w.log, p.audience, channel.read, channel.after, 1);
    assert channel.wire[..1] == [e];
    if c.last.Some? {
      VisibleReaches(w.log, p.audience, c.delivered[0].id - 1, c.last.value, channel.read, e);
    } else if Listened(e) {
      ReplaySelf(w.log, p.audience, channel.read, channel.after, e);
      VisibleOne(w.log, p.audience, e);
    }
    NothingBetween(w.log, p.audience, e.id);
    NothingVisible(w.log, p.audience, e.id, e.id);
  }

  /** One event further: what was visible to the last delivered, and the event if it is listened for. */
  lemma VisibleReaches(log: Log, audience: Audience, first: Id, last: Id, read: Id, e: Event)
    requires Ordered(log) && first <= last <= read < e.id && Replay(log, audience, read, e.id) == [e]
    requires Visible(log, audience, last, read) == []
    ensures Visible(log, audience, last, e.id) == if Listened(e) then [e] else []
    ensures Visible(log, audience, first, e.id)
            == Visible(log, audience, first, last) + Visible(log, audience, last, e.id)
  {
    OneAudible(e);
    VisibleSplits(log, audience, last, read, e.id);
    VisibleSplits(log, audience, first, last, e.id);
  }

  lemma VisibleOne(log: Log, audience: Audience, e: Event)
    requires Replay(log, audience, e.id - 1, e.id) == [e] && Listened(e)
    ensures Visible(log, audience, e.id - 1, e.id) == [e]
  {
    OneAudible(e);
  }

  lemma OneAudible(e: Event)
    ensures Audible([e]) == if Listened(e) then [e] else []
    ensures Audible([]) == []
  {
    hide Listened;
    assert [e][..0] == [];
  }

  /** An event is alone at its own id. */
  lemma ReplaySelf(log: Log, audience: Audience, read: Id, after: Id, e: Event)
    requires Ordered(log) && read < e.id <= after && Replay(log, audience, read, e.id) == [e]
    ensures Replay(log, audience, e.id - 1, e.id) == [e]
  {
    hide Replay, Authorized;
    ReplaySplits(log, audience, read, e.id - 1, e.id);
    ReplayIn(log, audience, read, e.id);
    ReplayIn(log, audience, e.id - 1, e.id);
    assert e in [e];
    assert |Replay(log, audience, e.id - 1, e.id)| > 0;
  }

  lemma ClientSound(p: Parties, w: World, action: Action)
    requires Sound(p, w) && (action.Fail? || action.Fire? || action.Start? || action.Stop? || action.SetOnline?)
    ensures Sound(p, Step(p, w, action))
  {
    hide Replay, Audible, Visible, DeliveredSound, Ordered;
  }

  /** Every action keeps every invariant. */
  lemma StepSound(p: Parties, w: World, action: Action)
    requires p.Agree() && Sound(p, w)
    ensures Sound(p, Step(p, w, action))
  {
    var source := w.client.source;
    match action {
      case Commit(e) => if e.id > Head(w.log) { CommitSound(p, w, e); }
      case Accept => if source.Some? && source.value.Opening? { AcceptSound(p, w); }
      case Fetch(limit) => if source.Some? && source.value.Streaming? { FetchSound(p, w, limit); }
      case Write => if source.Some? && source.value.Streaming? { WriteSound(p, w); }
      case Receive => if source.Some? && source.value.Streaming? && source.value.wire != [] { ReceiveSound(p, w); }
      case _ => ClientSound(p, w, action);
    }
  }

  lemma {:induction false} RunSound(p: Parties, log: Log, actions: seq<Action>)
    requires p.Agree() && Ordered(log)
    ensures Sound(p, Run(p, log, actions))
  {
    if actions != [] {
      RunSound(p, log, actions[..|actions| - 1]);
      hide Sound, Step;
      StepSound(p, Run(p, log, actions[..|actions| - 1]), actions[|actions| - 1]);
    }
  }

  // ---- What that gives every run --------------------------------------------------------------

  /** Once one event was delivered, what was delivered is a prefix of the visible log from it
      on, with every id after the one before, across any drops, reconnects, stops and starts. */
  lemma DeliveredIsPrefix(p: Parties, log: Log, actions: seq<Action>, w: World)
    requires p.Agree() && Ordered(log) && w == Run(p, log, actions) && w.client.delivered != []
    ensures w.client.delivered <= Visible(w.log, p.audience, w.client.delivered[0].id - 1, Head(w.log))
    ensures Ordered(w.client.delivered)
  {
    RunSound(p, log, actions);
    hide *;
    SoundPrefix(p, w);
  }

  lemma SoundPrefix(p: Parties, w: World)
    requires Sound(p, w) && w.client.delivered != []
    ensures w.client.delivered <= Visible(w.log, p.audience, w.client.delivered[0].id - 1, Head(w.log))
    ensures Ordered(w.client.delivered)
  {
    hide Visible, Ordered, ChannelSound;
    var first, last := w.client.delivered[0].id - 1, w.client.last.value;
    VisibleSplits(w.log, p.audience, first, last, Head(w.log));
    VisibleOrdered(w.log, p.audience, first, last);
  }

  lemma VisibleSplits(log: Log, audience: Audience, after: Id, at: Id, through: Id)
    requires Ordered(log) && after <= at <= through
    ensures Visible(log, audience, after, through)
            == Visible(log, audience, after, at) + Visible(log, audience, at, through)
  {
    ReplaySplits(log, audience, after, at, through);
    AudibleConcat(Replay(log, audience, after, at), Replay(log, audience, at, through));
  }

  lemma VisibleOrdered(log: Log, audience: Audience, after: Id, through: Id)
    requires Ordered(log)
    ensures Ordered(Visible(log, audience, after, through))
  {
    hide Replay, Audible;
    ReplayIn(log, audience, after, through);
    AudibleIn(Replay(log, audience, after, through));
  }

  lemma {:induction false} AudibleIsAll(events: seq<Event>)
    ensures |Audible(events)| <= |events|
    ensures |Audible(events)| == |events| <==> forall i :: 0 <= i < |events| ==> Listened(events[i])
    ensures |Audible(events)| == |events| ==> Audible(events) == events
  {
    hide Listened;
    if events != [] {
      AudibleIsAll(events[..|events| - 1]);
    }
  }

  /** Of all the events its audience may see, a client gets a gap-free run exactly when every one
      from the first it got to the last is of a kind it listens for. */
  lemma PrefixExactly(p: Parties, log: Log, actions: seq<Action>, w: World)
    requires p.Agree() && Ordered(log) && w == Run(p, log, actions) && w.client.delivered != []
    ensures w.client.last.Some?
    ensures var first, last := w.client.delivered[0].id - 1, w.client.last.value;
            w.client.delivered <= Replay(w.log, p.audience, first, Head(w.log))
            <==> forall e :: e in Replay(w.log, p.audience, first, last) ==> Listened(e)
  {
    RunSound(p, log, actions);
    hide *;
    SoundPrefixExactly(p, w);
  }

  lemma SoundPrefixExactly(p: Parties, w: World)
    requires Sound(p, w) && w.client.delivered != []
    ensures w.client.last.Some?
    ensures var first, last := w.client.delivered[0].id - 1, w.client.last.value;
            w.client.delivered <= Replay(w.log, p.audience, first, Head(w.log))
            <==> forall e :: e in Replay(w.log, p.audience, first, last) ==> Listened(e)
  {
    hide Audible, Replay, Ordered, Listened, Authorized, ChannelSound;
    var first, last := w.client.delivered[0].id - 1, w.client.last.value;
    var heard, rest := Replay(w.log, p.audience, first, last), Replay(w.log, p.audience, last, Head(w.log));
    ReplaySplits(w.log, p.audience, first, last, Head(w.log));
    ReplayIn(w.log, p.audience, first, last);
    ReplayIn(w.log, p.audience, first, Head(w.log));
    AudibleIsAll(heard);
    AudibleIn(heard);
    AudiblePrefix(heard, rest, last);
  }

  lemma AudiblePrefix(heard: seq<Event>, rest: seq<Event>, last: Id)
    requires Ordered(heard) && Ordered(heard + rest) && Audible(heard) != []
             && Audible(heard)[|Audible(heard)| - 1].id == last
    requires (forall e :: e in heard ==> e.id <= last) && forall e :: e in Audible(heard) ==> e in heard
    requires |Audible(heard)| == |heard| <==> forall i :: 0 <= i < |heard| ==> Listened(heard[i])
    requires |Audible(heard)| <= |heard| && (|Audible(heard)| == |heard| ==> Audible(heard) == heard)
    ensures Audible(heard) <= heard + rest <==> forall e :: e in heard ==> Listened(e)
  {
    hide Listened, Audible;
    var got := Audible(heard);
    if got <= heard + rest {
      var k := |got| - 1;
      assert (heard + rest)[k] == got[k] && heard[k] == got[k];
      assert heard[|heard| - 1] in heard;
      assert |got| == |heard|;
      forall e | e in heard ensures Listened(e) {
        var i :| 0 <= i < |heard| && heard[i] == e;
      }
    }
    if forall e :: e in heard ==> Listened(e) {
      assert forall i :: 0 <= i < |heard| ==> heard[i] in heard;
      assert got == heard;
    }
  }

  // ---- An event of another kind in between ----------------------------------------------------

  function Change(id: Id, kind: string): Event {
    Event(id, kind, Shared, None, "entity", "one")
  }

  const THREE_CHANGES: seq<Event> :=
    [Change(1, "daily_bar.changed.v1"), Change(2, "signals.changed.v1"), Change(3, "daily_bar.changed.v1")]

  const WATCHING: seq<Action> :=
    [Start, Accept, Commit(Change(1, "daily_bar.changed.v1")), Commit(Change(2, "signals.changed.v1")),
     Commit(Change(3, "daily_bar.changed.v1")), Fetch(100), Write, Write, Write, Receive, Receive, Receive]

  lemma RunNext(p: Parties, log: Log, actions: seq<Action>, k: nat)
    requires k < |actions|
    ensures Run(p, log, actions[..k + 1]) == Step(p, Run(p, log, actions[..k]), actions[k])
  {
    hide Step;
    assert actions[..k + 1][..k] == actions[..k];
  }

  /** Three events anybody may see, the second of a kind the client does not listen for, are all
      written and read, and the client is told of the first and the third. */
  lemma UnlistenedIsSkipped(p: Parties)
    requires p.Agree()
    ensures var w := Run(p, [], WATCHING);
            && w.client.delivered == [THREE_CHANGES[0], THREE_CHANGES[2]]
            && Replay(w.log, p.audience, 0, Head(w.log)) == THREE_CHANGES
            && !(w.client.delivered <= Replay(w.log, p.audience, 0, Head(w.log)))
  {
    var a, b, c := THREE_CHANGES[0], THREE_CHANGES[1], THREE_CHANGES[2];
    assert WATCHING[..0] == [];
    Committed(p);
    Streamed(p);
    ThreeReplayed(p);
    assert [a, c][1] != THREE_CHANGES[1];
  }

  /** Up to the last commit: connected at the empty log's head, and three events in it. */
  lemma Committed(p: Parties)
    ensures var w := Run(p, [], WATCHING[..5]);
            && w.log == THREE_CHANGES
            && w.client == IDLE.(running := true, source := Some(Streaming(0, 0, [], [])))
  {
    hide Step;
    assert WATCHING[..0] == [];
    RunNext(p, [], WATCHING, 0);
    RunNext(p, [], WATCHING, 1);
    RunNext(p, [], WATCHING, 2);
    RunNext(p, [], WATCHING, 3);
    RunNext(p, [], WATCHING, 4);
    Opened(p);
    hide Run;
    CommitOne(p, Run(p, [], WATCHING[..2]), 0);
    CommitOne(p, Run(p, [], WATCHING[..3]), 1);
    CommitOne(p, Run(p, [], WATCHING[..4]), 2);
  }

  lemma Opened(p: Parties)
    ensures Step(p, Step(p, World([], IDLE), Start), Accept)
            == World([], IDLE.(running := true, source := Some(Streaming(0, 0, [], []))))
  {
  }

  lemma CommitOne(p: Parties, w: World, k: nat)
    requires k < 3 && w.log == THREE_CHANGES[..k]
    ensures Step(p, w, Commit(THREE_CHANGES[k])) == w.(log := THREE_CHANGES[..k + 1])
    ensures THREE_CHANGES[..3] == THREE_CHANGES
  {
    assert THREE_CHANGES[..k] + [THREE_CHANGES[k]] == THREE_CHANGES[..k + 1];
  }

  lemma ThreeReplayed(p: Parties)
    ensures Replay(THREE_CHANGES, p.audience, 0, 3) == THREE_CHANGES
  {
    assert THREE_CHANGES[..2] == [THREE_CHANGES[0], THREE_CHANGES[1]];
    assert THREE_CHANGES[..2][..1] == [THREE_CHANGES[0]] && [THREE_CHANGES[0]][..0] == [];
    assert Replay([], p.audience, 0, 3) == [];
    assert Replay([THREE_CHANGES[0]], p.audience, 0, 3) == [THREE_CHANGES[0]];
  }

  /** From there: the three are fetched and written. */
  lemma Carried(p: Parties)
    requires var w := Run(p, [], WATCHING[..5]);
             w.log == THREE_CHANGES && w.client == IDLE.(running := true, source := Some(Streaming(0, 0, [], [])))
    ensures var w := Run(p, [], WATCHING[..9]);
            w.log == THREE_CHANGES && w.client
              == IDLE.(running := true, source := Some(Streaming(0, 3, THREE_CHANGES, [])))
  {
    hide Step;
    RunNext(p, [], WATCHING, 5);
    RunNext(p, [], WATCHING, 6);
    RunNext(p, [], WATCHING, 7);
    RunNext(p, [], WATCHING, 8);
    hide Run;
    FetchThree(p, Run(p, [], WATCHING[..5]));
    WriteOne(p, Run(p, [], WATCHING[..6]), 0);
    WriteOne(p, Run(p, [], WATCHING[..7]), 1);
    WriteOne(p, Run(p, [], WATCHING[..8]), 2);
  }

  lemma FetchThree(p: Parties, w: World)
    requires w.log == THREE_CHANGES && w.client.source == Some(Streaming(0, 0, [], []))
    ensures Step(p, w, Fetch(100)) == OnChannel(w, Streaming(0, 0, THREE_CHANGES[..0], THREE_CHANGES[0..]))
  {
    hide Listened, Authorized, Replay;
    ThreeReplayed(p);
    assert THREE_CHANGES[..3] == THREE_CHANGES == THREE_CHANGES[0..];
  }

  lemma WriteOne(p: Parties, w: World, k: nat)
    requires k < 3
    requires w.client.source == Some(Streaming(0, k, THREE_CHANGES[..k], THREE_CHANGES[k..]))
    ensures Step(p, w, Write) == OnChannel(w, Streaming(0, k + 1, THREE_CHANGES[..k + 1], THREE_CHANGES[k + 1..]))
    ensures THREE_CHANGES[3..] == [] && THREE_CHANGES[..3] == THREE_CHANGES
  {
    assert THREE_CHANGES[k..][1..] == THREE_CHANGES[k + 1..]
      && THREE_CHANGES[..k] + [THREE_CHANGES[k..][0]] == THREE_CHANGES[..k + 1];
  }

  lemma ReadOne(p: Parties, w: World, k: nat)
    requires p.Agree() && k < 3 && w.client.source == Some(Streaming(k, 3, THREE_CHANGES[k..], []))
    requires THREE_CHANGES[k].id !in w.client.seen
    ensures Step(p, w, Receive).log == w.log
    ensures Step(p, w, Receive).client.source == Some(Streaming(k + 1, 3, THREE_CHANGES[k + 1..], []))
    ensures Step(p, w, Receive).client.delivered == w.client.delivered + if k == 1 then [] else [THREE_CHANGES[k]]
    ensures Step(p, w, Receive).client.seen == if k == 1 then w.client.seen else Remembered(w.client.seen, k + 1)
  {
    hide Listened;
    KindsHeard();
    assert THREE_CHANGES[k..][1..] == THREE_CHANGES[k + 1..] && THREE_CHANGES[k..][0] == THREE_CHANGES[k];
  }

  /** And read: the first and the third are told. */
  lemma Streamed(p: Parties)
    requires p.Agree()
    requires var w := Run(p, [], WATCHING[..5]);
             w.log == THREE_CHANGES && w.client == IDLE.(running := true, source := Some(Streaming(0, 0, [], [])))
    ensures var w := Run(p, [], WATCHING);
            w.log == THREE_CHANGES && w.client.delivered == [THREE_CHANGES[0], THREE_CHANGES[2]]
  {
    hide Step;
    Carried(p);
    assert WATCHING[..12] == WATCHING;
    RunNext(p, [], WATCHING, 9);
    RunNext(p, [], WATCHING, 10);
    RunNext(p, [], WATCHING, 11);
    hide Run;
    ReadOne(p, Run(p, [], WATCHING[..9]), 0);
    ReadOne(p, Run(p, [], WATCHING[..10]), 1);
    ReadOne(p, Run(p, [], WATCHING[..11]), 2);
  }

  lemma KindsHeard()
    ensures Listened(THREE_CHANGES[0]) && !Listened(THREE_CHANGES[1]) && Listened(THREE_CHANGES[2])
  {
  }

  /** A stream with nothing left to fetch, write or read has delivered all of it. */
  lemma CaughtUp(p: Parties, log: Log, actions: seq<Action>, w: World)
    requires p.Agree() && Ordered(log) && w == Run(p, log, actions)
    requires w.client.delivered != [] && w.client.source.Some? && w.client.source.value.Streaming?
    requires var channel := w.client.source.value;
             channel.wire == [] && channel.batch == [] && Batch(w.log, p.audience, channel.after, 1) == []
    ensures w.client.delivered == Visible(w.log, p.audience, w.client.delivered[0].id - 1, Head(w.log))
  {
    RunSound(p, log, actions);
    hide *;
    SoundCaughtUp(p, w);
  }

  lemma SoundCaughtUp(p: Parties, w: World)
    requires Sound(p, w) && w.client.delivered != [] && w.client.source.Some? && w.client.source.value.Streaming?
    requires var channel := w.client.source.value;
             channel.wire == [] && channel.batch == [] && Batch(w.log, p.audience, channel.after, 1) == []
    ensures w.client.delivered == Visible(w.log, p.audience, w.client.delivered[0].id - 1, Head(w.log))
  {
    hide Visible, Ordered, Replay;
    var channel, first, last := w.client.source.value, w.client.delivered[0].id - 1, w.client.last.value;
    var left := Replay(w.log, p.audience, channel.after, Head(w.log));
    assert left[..Least(1, |left|)] == [];
    NothingVisible(w.log, p.audience, channel.read, channel.after);
    NothingVisible(w.log, p.audience, channel.after, Head(w.log));
    VisibleSplits(w.log, p.audience, channel.read, channel.after, Head(w.log));
    VisibleSplits(w.log, p.audience, last, channel.read, Head(w.log));
    VisibleSplits(w.log, p.audience, first, last, Head(w.log));
  }

  lemma NothingVisible(log: Log, audience: Audience, after: Id, through: Id)
    requires Replay(log, audience, after, through) == []
    ensures Visible(log, audience, after, through) == []
  {
  }

  /** A running client that is online always has a stream or a timer that will ask for one. */
  lemma NeverStranded(p: Parties, log: Log, actions: seq<Action>, w: World)
    requires p.Agree() && Ordered(log) && w == Run(p, log, actions)
    ensures w.client.running && w.client.online ==> w.client.source.Some? || w.client.timer
  {
    RunSound(p, log, actions);
  }
}
