/** One member's sign-in codes: issue, verify, block, lock and unlock, each a transaction. */
module MemberThrottle {
  import opened Prelude

  /** Microseconds. */
  type Time = int
  type Id = int

  /** A keyed digest of a code; distinct codes have distinct digests. */
  type Digest = int

  const MINUTE: Time := 60_000_000
  const CODE_TTL: Time := 10 * MINUTE
  const BLOCK_THRESHOLD: nat := 3
  const BLOCK_DURATION: Time := 15 * MINUTE
  const LOCK_THRESHOLD: nat := 10
  const LOCK_WINDOW: Time := 24 * 60 * MINUTE

  datatype ChallengeState = Active | Used | Superseded | Expired | Revoked

  datatype Challenge = Challenge(id: Id, digest: Digest, state: ChallengeState, createdAt: Time, expiresAt: Time)

  datatype Failure = Failure(code: Id, at: Time)

  /** Aborted: a constraint refused the transaction, and nothing of it is stored. */
  datatype Outcome = Succeeded | Failed | Blocked | Locked | Aborted | OwnerRequired | MemberNotFound

  // ---- The throttling row ---------------------------------------------------------------------

  datatype Login = Login(consecutive: nat, blockedUntil: Option<Time>, lockedAt: Option<Time>)
  {
    predicate IsLocked() {
      lockedAt.Some?
    }

    predicate BlockedAt(now: Time) {
      blockedUntil.Some? && now < blockedUntil.value
    }

    function AfterFailure(now: Time, rolling: int): (Login, Outcome) {
      if rolling < 1 then (this, Aborted)
      else if IsLocked() then (this, Locked)
      else if rolling >= LOCK_THRESHOLD then (Login(0, None, Some(now)), Locked)
      else if consecutive + 1 >= BLOCK_THRESHOLD then (Login(0, Some(now + BLOCK_DURATION), lockedAt), Blocked)
      else (this.(consecutive := consecutive + 1), Failed)
    }
  }

  const CLEARED := Login(0, None, None)

  /** The row as a transaction holds it: read, changed, saved. */
  class MemberLoginState {
    var consecutiveFailures: nat
    var blockedUntil: Option<Time>
    var administrativelyLockedAt: Option<Time>

    ghost function Value(): Login reads this {
      Login(consecutiveFailures, blockedUntil, administrativelyLockedAt)
    }

    constructor (row: Login)
      ensures Value() == row
    {
      consecutiveFailures, blockedUntil, administrativelyLockedAt := row.consecutive, row.blockedUntil, row.lockedAt;
    }

    method RecordFailure(now: Time, rolling: int) returns (outcome: Outcome)
      modifies this
      ensures (Value(), outcome) == old(Value()).AfterFailure(now, rolling)
    {
      if rolling < 1 {
        return Aborted;
      }
      if administrativelyLockedAt.Some? {
        return Locked;
      }
      if rolling >= LOCK_THRESHOLD {
        administrativelyLockedAt, consecutiveFailures, blockedUntil := Some(now), 0, None;
        return Locked;
      }
      if consecutiveFailures + 1 >= BLOCK_THRESHOLD {
        blockedUntil, consecutiveFailures := Some(now + BLOCK_DURATION), 0;
        return Blocked;
      }
      consecutiveFailures := consecutiveFailures + 1;
      return Failed;
    }

    method RecordSuccess() returns (ok: bool)
      modifies this
      ensures ok == !old(Value()).IsLocked()
      ensures Value() == if ok then CLEARED else old(Value())
    {
      if administrativelyLockedAt.Some? {
        return false;
      }
      consecutiveFailures, blockedUntil := 0, None;
      return true;
    }

    method Unlock()
      modifies this
      ensures Value() == CLEARED
    {
      administrativelyLockedAt, blockedUntil, consecutiveFailures := None, None, 0;
    }
  }

  // ---- The challenge rows ---------------------------------------------------------------------

  /** Every active challenge put in another state. */
  function Retired(codes: seq<Challenge>, to: ChallengeState): (r: seq<Challenge>)
    ensures |r| == |codes|
    ensures forall i :: 0 <= i < |codes| ==> r[i] == if codes[i].state.Active? then codes[i].(state := to) else codes[i]
  {
    seq(|codes|, i requires 0 <= i < |codes| => if codes[i].state.Active? then codes[i].(state := to) else codes[i])
  }

  function Elapsed(codes: seq<Challenge>, now: Time): (r: seq<Challenge>)
    ensures |r| == |codes|
    ensures forall i :: 0 <= i < |codes| ==>
              r[i] == if codes[i].state.Active? && codes[i].expiresAt <= now then codes[i].(state := Expired)
                else codes[i]
  {
    seq(|codes|, i requires 0 <= i < |codes| =>
      if codes[i].state.Active? && codes[i].expiresAt <= now then codes[i].(state := Expired) else codes[i])
  }

  function ActiveIndex(codes: seq<Challenge>): (r: Option<nat>)
    ensures r.Some? ==> r.value < |codes| && codes[r.value].state.Active?
    ensures r.None? ==> forall i :: 0 <= i < |codes| ==> !codes[i].state.Active?
  {
    if codes == [] then None
    else if codes[|codes| - 1].state.Active? then Some(|codes| - 1)
    else ActiveIndex(codes[..|codes| - 1])
  }

  /** A stored invalidation may not precede its challenge's creation. */
  predicate Stampable(codes: seq<Challenge>, now: Time) {
    forall i :: 0 <= i < |codes| && codes[i].state.Active? ==> codes[i].createdAt <= now
  }

  /** The newest challenge, by creation and then by id. */
  function Newest(codes: seq<Challenge>): Challenge
    requires codes != []
  {
    if |codes| == 1 then codes[0]
    else
      var rest, c := Newest(codes[..|codes| - 1]), codes[|codes| - 1];
      if c.createdAt > rest.createdAt || (c.createdAt == rest.createdAt && c.id > rest.id) then c else rest
  }

  lemma {:induction false} NewestIsStored(codes: seq<Challenge>)
    requires codes != []
    ensures Newest(codes) in codes && forall c :: c in codes ==> c.createdAt <= Newest(codes).createdAt
  {
    if |codes| > 1 {
      NewestIsStored(codes[..|codes| - 1]);
      assert forall c :: c in codes ==> c in codes[..|codes| - 1] || c == codes[|codes| - 1];
    }
  }

  // ---- The failure rows -----------------------------------------------------------------------

  function FailuresAfter(failures: seq<Failure>, cut: Time): nat {
    if failures == [] then 0
    else FailuresAfter(failures[..|failures| - 1], cut) + if failures[|failures| - 1].at > cut then 1 else 0
  }

  function FailuresWithin(failures: seq<Failure>, x: Time, y: Time): nat {
    if failures == [] then 0
    else FailuresWithin(failures[..|failures| - 1], x, y) + if x < failures[|failures| - 1].at <= y then 1 else 0
  }

  function FailuresInDay(failures: seq<Failure>, x: Time): nat {
    FailuresWithin(failures, x, x + LOCK_WINDOW)
  }

  lemma {:induction false} WithinIsAfter(failures: seq<Failure>, cut: Time, x: Time, y: Time)
    requires cut <= x
    ensures FailuresWithin(failures, x, y) <= FailuresAfter(failures, cut)
  {
    if failures != [] { WithinIsAfter(failures[..|failures| - 1], cut, x, y); }
  }

  lemma FailuresAppend(failures: seq<Failure>, f: Failure, x: Time, y: Time)
    ensures FailuresWithin(failures + [f], x, y) == FailuresWithin(failures, x, y) + if x < f.at <= y then 1 else 0
    ensures FailuresAfter(failures + [f], x) == FailuresAfter(failures, x) + if f.at > x then 1 else 0
  {
    assert (failures + [f])[..|failures|] == failures;
  }

  // ---- The transactions -----------------------------------------------------------------------

  datatype DeliveryState = Pending | Sent | Undeliverable

  /** The email of a code, and how often it was attempted. */
  datatype Delivery = Delivery(state: DeliveryState, attempts: nat)

  datatype Member = Member(active: bool, login: Login, codes: seq<Challenge>, failures: seq<Failure>, sessions: seq<Id>,
                           deliveries: map<Id, Delivery>)

  /** A new code: refused while locked or blocked; otherwise it supersedes the outstanding one.
      A taken digest is another member's active code. */
  function Issued(m: Member, id: Id, delivery: Id, digest: Digest, now: Time, taken: bool): (Member, Outcome) {
    if !m.active then (m, Failed)
    else if m.login.IsLocked() then (m, Locked)
    else if m.login.BlockedAt(now) then (m, Blocked)
    else if !Stampable(m.codes, now) || taken || delivery in m.deliveries
            || (exists i :: 0 <= i < |m.codes| && m.codes[i].id == id) then (m, Aborted)
    else (m.(codes := Retired(m.codes, Superseded) + [Challenge(id, digest, Active, now, now + CODE_TTL)],
             deliveries := m.deliveries[delivery := Delivery(Pending, 0)]), Succeeded)
  }

  /** What a submission came to, beside the member it left. */
  datatype Trial = Trial(member: Member, outcome: Outcome, entry: Option<Entry>)

  /** What a run leaves behind: codes that let somebody in, wrong codes counted, unlocks. */
  datatype Entry = Granted(code: Id, at: Time) | Wrong(against: Option<Id>, at: Time) | Unlocked

  function Accepted(m: Member, i: nat, session: Id, now: Time): Trial
    requires i < |m.codes|
  {
    var code := m.codes[i];
    if now < code.createdAt then Trial(m, Aborted, None)
    else Trial(m.(codes := m.codes[i := code.(state := Used)], login := CLEARED, sessions := m.sessions + [session]),
               Succeeded, Some(Granted(code.id, now)))
  }

  function Rejected(m: Member, now: Time): Trial
    requires m.codes != []
  {
    var failures := m.failures + [Failure(Newest(m.codes).id, now)];
    var (login, outcome) := m.login.AfterFailure(now, FailuresAfter(failures, now - LOCK_WINDOW));
    var against := var i := ActiveIndex(m.codes); if i.Some? then Some(m.codes[i.value].id) else None;
    if outcome == Aborted || (outcome != Failed && !Stampable(m.codes, now)) then Trial(m, Aborted, None)
    else
      var codes := if outcome == Failed then m.codes else Retired(m.codes, Revoked);
      Trial(m.(codes := codes, login := login, failures := failures), outcome, Some(Wrong(against, now)))
  }

  /** One submission, in the order the transaction looks at things. */
  function Verified(m: Member, digest: Digest, session: Id, now: Time): Trial {
    if !m.active then Trial(m, Failed, None)
    else if m.login.IsLocked() then Trial(m, Locked, None)
    else if m.login.BlockedAt(now) then Trial(m, Blocked, None)
    else if m.codes == [] then Trial(m, Failed, None)
    else
      var swept := m.(codes := Elapsed(m.codes, now));
      var i := ActiveIndex(swept.codes);
      var trial := if i.Some? && swept.codes[i.value].digest == digest then Accepted(swept, i.value, session, now)
        else Rejected(swept, now);
      if trial.outcome == Aborted then Trial(m, Aborted, None) else trial
  }

  function Freed(m: Member, now: Time): (Member, Outcome) {
    if !Stampable(m.codes, now) then (m, Aborted)
    else (m.(login := CLEARED, failures := [], codes := Retired(m.codes, Revoked)), Succeeded)
  }

  /** A pending delivery settles, once. */
  function Settled(deliveries: map<Id, Delivery>, id: Id, to: DeliveryState): map<Id, Delivery> {
    if id in deliveries && deliveries[id].state.Pending?
      then deliveries[id := Delivery(to, deliveries[id].attempts + 1)]
    else deliveries
  }

  /** A failed delivery retires its own challenge. */
  function Undelivered(m: Member, id: Id, delivery: Id, now: Time): (r: (Member, Outcome))
    ensures |r.0.codes| == |m.codes|
  {
    if exists i ::
         0 <= i < |m.codes| && m.codes[i].id == id && m.codes[i].state.Active? && m.codes[i].createdAt > now
    then (m, Aborted)
    else
      (m.(codes := seq(|m.codes|, i requires 0 <= i < |m.codes| =>
        if m.codes[i].id == id && m.codes[i].state.Active? then m.codes[i].(state := Revoked) else m.codes[i]),
          deliveries := Settled(m.deliveries, delivery, Undeliverable)), Succeeded)
  }

  function WithDelivery(m: Member, delivery: Id): Member {
    m.(deliveries := Settled(m.deliveries, delivery, Sent))
  }

  /** Deactivation and key rotation retire whatever is outstanding. */
  function RevokedAll(m: Member, now: Time, active: bool): (Member, Outcome) {
    if !Stampable(m.codes, now) then (m, Aborted)
    else (m.(active := active, codes := Retired(m.codes, Revoked)), Succeeded)
  }

  /** The rows of one member, as the transactions change them. */
  class Account {
    var active: bool
    var login: Login
    var codes: seq<Challenge>
    var failures: seq<Failure>
    var sessions: seq<Id>
    var deliveries: map<Id, Delivery>

    function Now(): Member reads this {
      Member(active, login, codes, failures, sessions, deliveries)
    }

    method IssueMemberChallenge(id: Id, delivery: Id, digest: Digest, now: Time, taken: bool) returns (outcome: Outcome)
      modifies this
      ensures (Now(), outcome) == Issued(old(Now()), id, delivery, digest, now, taken)
    {
      if !active {
        return Failed;
      }
      if login.IsLocked() {
        return Locked;
      }
      if login.BlockedAt(now) {
        return Blocked;
      }
      if !Stampable(codes, now) || taken || delivery in deliveries
         || exists i :: 0 <= i < |codes| && codes[i].id == id
      {
        return Aborted;
      }
      codes := Retired(codes, Superseded);
      deliveries := deliveries[delivery := Delivery(Pending, 0)];
      codes := codes + [Challenge(id, digest, Active, now, now + CODE_TTL)];
      outcome := Succeeded;
    }

    method VerifyMemberChallenge(digest: Digest, session: Id, now: Time) returns (outcome: Outcome)
      modifies this
      ensures Now() == Verified(old(Now()), digest, session, now).member
      ensures outcome == Verified(old(Now()), digest, session, now).outcome
    {
      if !active {
        return Failed;
      }
      if login.IsLocked() {
        return Locked;
      }
      if login.BlockedAt(now) {
        return Blocked;
      }
      if codes == [] {
        return Failed;
      }
      var stored := codes;
      codes := Elapsed(codes, now);
      var state := new MemberLoginState(login);
      var current := ActiveIndex(codes);
      if current.Some? && codes[current.value].digest == digest {
        var code := codes[current.value];
        if now < code.createdAt {
          codes := stored;
          return Aborted;
        }
        codes := codes[current.value := code.(state := Used)];
        var _ := state.RecordSuccess();
        login := Login(state.consecutiveFailures, state.blockedUntil, state.administrativelyLockedAt);
        sessions := sessions + [session];
        return Succeeded;
      }
      var counted := failures + [Failure(Newest(codes).id, now)];
      outcome := state.RecordFailure(now, FailuresAfter(counted, now - LOCK_WINDOW));
      if outcome == Aborted || (outcome != Failed && !Stampable(codes, now)) {
        codes := stored;
        return Aborted;
      }
      failures := counted;
      login := Login(state.consecutiveFailures, state.blockedUntil, state.administrativelyLockedAt);
      if outcome != Failed {
        codes := Retired(codes, Revoked);
      }
    }

    /** An active owner frees a member; anybody else, or any other account, changes nothing. */
    method UnlockMember(ownerActive: bool, isMember: bool, now: Time) returns (outcome: Outcome)
      modifies this
      ensures (Now(), outcome) == if !ownerActive then (old(Now()), OwnerRequired)
                                  else if !isMember then (old(Now()), MemberNotFound)
                                  else Freed(old(Now()), now)
    {
      if !ownerActive {
        return OwnerRequired;
      }
      if !isMember {
        return MemberNotFound;
      }
      if !Stampable(codes, now) {
        return Aborted;
      }
      var state := new MemberLoginState(login);
      state.Unlock();
      login := Login(state.consecutiveFailures, state.blockedUntil, state.administrativelyLockedAt);
      failures := [];
      codes := Retired(codes, Revoked);
      outcome := Succeeded;
    }

    /** What became of a code's email, settled once; only a failure touches the code. */
    method MarkMemberCodeDelivery(id: Id, delivery: Id, now: Time, delivered: bool) returns (outcome: Outcome)
      modifies this
      ensures (Now(), outcome) == if delivered then (WithDelivery(old(Now()), delivery), Succeeded)
                                  else Undelivered(old(Now()), id, delivery, now)
    {
      if delivered {
        deliveries := Settled(deliveries, delivery, Sent);
        return Succeeded;
      }
      var stored := codes;
      for k := 0 to |stored|
        invariant |codes| == |stored| && old(Now()) == Now().(codes := stored)
        invariant forall i :: k <= i < |stored| ==> codes[i] == stored[i]
        invariant forall i :: 0 <= i < k ==>
                    codes[i] == if stored[i].id == id && stored[i].state.Active? then stored[i].(state := Revoked)
                      else stored[i]
        invariant forall i :: 0 <= i < k ==>
                  !(stored[i].id == id && stored[i].state.Active? && stored[i].createdAt > now)
      {
        if stored[k].id == id && stored[k].state.Active? {
          if stored[k].createdAt > now {
            codes := stored;
            return Aborted;
          }
          codes := codes[k := stored[k].(state := Revoked)];
        }
      }
      assert codes == Undelivered(old(Now()), id, delivery, now).0.codes;
      deliveries := Settled(deliveries, delivery, Undeliverable);
      outcome := Succeeded;
    }
  }

  // ---- Whole runs -----------------------------------------------------------------------------

  datatype Command =
    | Issue(id: Id, delivery: Id, digest: Digest, now: Time, taken: bool)
    | Verify(digest: Digest, session: Id, now: Time)
    | Unlock(now: Time)
    | DeliveryFailed(id: Id, delivery: Id, now: Time)
    | Delivered(delivery: Id, now: Time)
    | Revoke(now: Time, active: bool)
    | Reactivate(now: Time)

  datatype State = State(member: Member, log: seq<Entry>)

  const FRESH := State(Member(true, CLEARED, [], [], [], map[]), [])

  function Step(s: State, c: Command): State {
    match c
    case Issue(id, delivery, digest, now, taken) => s.(member := Issued(s.member, id, delivery, digest, now, taken).0)
    case Verify(digest, session, now) =>
      var trial := Verified(s.member, digest, session, now);
      State(trial.member, if trial.entry.Some? then s.log + [trial.entry.value] else s.log)
    case Unlock(now) =>
      var (member, outcome) := Freed(s.member, now);
      if outcome == Succeeded then State(member, s.log + [Unlocked]) else s
    case DeliveryFailed(id, delivery, now) => s.(member := Undelivered(s.member, id, delivery, now).0)
    case Delivered(delivery, _) => s.(member := WithDelivery(s.member, delivery))
    case Revoke(now, active) => s.(member := RevokedAll(s.member, now, active).0)
    case Reactivate(_) => s.(member := s.member.(active := true))
  }

  function Run(s: State, commands: seq<Command>): State {
    if commands == [] then s else Step(Run(s, commands[..|commands| - 1]), commands[|commands| - 1])
  }

  // ---- What every step keeps ------------------------------------------------------------------

  function Grants(log: seq<Entry>, code: Id): nat {
    if log == [] then 0
    else
      var e := log[|log| - 1];
      Grants(log[..|log| - 1], code) + if e.Granted? && e.code == code then 1 else 0
  }

  /** Wrong codes counted while a code was the active one. */
  function WrongsAgainst(log: seq<Entry>, code: Id): nat {
    if log == [] then 0
    else
      var e := log[|log| - 1];
      WrongsAgainst(log[..|log| - 1], code) + if e.Wrong? && e.against == Some(code) then 1 else 0
  }

  /** Wrong codes counted since the last sign-in or unlock. */
  function Streak(log: seq<Entry>): nat {
    if log == [] || !log[|log| - 1].Wrong? then 0 else Streak(log[..|log| - 1]) + 1
  }

  /** When each wrong code since the last unlock was counted. */
  function CountedTimes(log: seq<Entry>): seq<Time> {
    if log == [] || log[|log| - 1].Unlocked? then []
    else
      var e := log[|log| - 1];
      CountedTimes(log[..|log| - 1]) + if e.Wrong? then [e.at] else []
  }

  function Times(failures: seq<Failure>): seq<Time> {
    seq(|failures|, i requires 0 <= i < |failures| => failures[i].at)
  }

  ghost predicate OneActive(codes: seq<Challenge>) {
    forall i, j :: 0 <= i < j < |codes| ==>
      codes[i].id != codes[j].id && !(codes[i].state.Active? && codes[j].state.Active?)
  }

  /** A code was granted at most once and only if it is used; it faced at most three wrong
      codes, and while still active no more than the running count. */
  ghost predicate CodeSound(code: Challenge, login: Login, log: seq<Entry>) {
    && Grants(log, code.id) <= (if code.state.Used? then 1 else 0)
    && WrongsAgainst(log, code.id) <= BLOCK_THRESHOLD
    && (code.state.Active? ==> WrongsAgainst(log, code.id) <= login.consecutive && !login.IsLocked())
  }

  ghost predicate NotIssued(codes: seq<Challenge>, id: Id) {
    forall i :: 0 <= i < |codes| ==> codes[i].id != id
  }

  ghost predicate CodesSound(s: State) {
    && (forall i :: 0 <= i < |s.member.codes| ==> CodeSound(s.member.codes[i], s.member.login, s.log))
    && forall id :: NotIssued(s.member.codes, id) ==> Grants(s.log, id) == 0 && WrongsAgainst(s.log, id) == 0
  }

  /** Any day holds at most ten counted failures, and at most nine while nobody is locked out. */
  ghost predicate DaySound(m: Member) {
    forall x :: FailuresInDay(m.failures, x) <= LOCK_THRESHOLD - (if m.login.IsLocked() then 0 else 1)
  }

  ghost predicate CountSound(s: State) {
    && s.member.login.consecutive < BLOCK_THRESHOLD
    && (!s.member.login.IsLocked() ==> s.member.login.consecutive == Streak(s.log) % BLOCK_THRESHOLD)
    && Times(s.member.failures) == CountedTimes(s.log)
  }

  ghost predicate Sound(s: State) {
    OneActive(s.member.codes) && CodesSound(s) && DaySound(s.member) && CountSound(s)
  }

  /** Codes only ever leave the active state, other than by use. */
  ghost predicate Ages(codes: seq<Challenge>, aged: seq<Challenge>) {
    && |aged| == |codes|
    && forall i :: 0 <= i < |codes| ==>
         aged[i] == codes[i] || (aged[i] == codes[i].(state := aged[i].state) && codes[i].state.Active?
           && !aged[i].state.Used?)
  }

  lemma AgedSound(s: State, s': State)
    requires OneActive(s.member.codes) && CodesSound(s)
    requires Ages(s.member.codes, s'.member.codes) && s'.log == s.log
    requires s'.member.login == s.member.login || ActiveIndex(s'.member.codes).None?
    ensures OneActive(s'.member.codes) && CodesSound(s')
  {
    hide Grants, WrongsAgainst;
    var codes, aged := s.member.codes, s'.member.codes;
    forall i | 0 <= i < |aged| ensures CodeSound(aged[i], s'.member.login, s'.log) {
      assert CodeSound(codes[i], s.member.login, s.log);
    }
    forall id | NotIssued(aged, id) ensures NotIssued(codes, id) {
      forall i | 0 <= i < |codes| ensures codes[i].id != id { assert aged[i].id == codes[i].id; }
    }
  }

  lemma LogAppend(log: seq<Entry>, e: Entry, code: Id)
    ensures Grants(log + [e], code) == Grants(log, code) + if e.Granted? && e.code == code then 1 else 0
    ensures WrongsAgainst(log + [e], code)
         == WrongsAgainst(log, code) + if e.Wrong? && e.against == Some(code) then 1 else 0
    ensures Streak(log + [e]) == if e.Wrong? then Streak(log) + 1 else 0
    ensures CountedTimes(log + [e]) == if e.Unlocked? then [] else CountedTimes(log) + if e.Wrong? then [e.at] else []
  {
    assert (log + [e])[..|log|] == log;
  }

  /** A new code, beside the retired ones. */
  lemma IssuedSound(s: State, code: Challenge)
    requires OneActive(s.member.codes) && CodesSound(s) && !s.member.login.IsLocked()
    requires ActiveIndex(s.member.codes).None? && NotIssued(s.member.codes, code.id) && code.state.Active?
    ensures var s' := s.(member := s.member.(codes := s.member.codes + [code]));
            OneActive(s'.member.codes) && CodesSound(s')
  {
    hide Grants, WrongsAgainst;
    var codes, more := s.member.codes, s.member.codes + [code];
    forall i | 0 <= i < |more| ensures CodeSound(more[i], s.member.login, s.log) {
      if i < |codes| { assert CodeSound(codes[i], s.member.login, s.log); }
    }
    forall id | NotIssued(more, id) ensures NotIssued(codes, id) {
      forall i | 0 <= i < |codes| ensures codes[i].id != id { assert more[i].id == codes[i].id; }
    }
  }

  lemma StillNotIssued(codes: seq<Challenge>, same: seq<Challenge>, id: Id)
    requires |codes| == |same| && (forall i :: 0 <= i < |codes| ==> codes[i].id == same[i].id) && NotIssued(same, id)
    ensures NotIssued(codes, id)
  {
    forall i | 0 <= i < |codes| ensures codes[i].id != id { assert same[i].id == codes[i].id; }
  }

  lemma AcceptedSound(s: State, i: nat, session: Id, now: Time)
    requires OneActive(s.member.codes) && CodesSound(s) && i < |s.member.codes| && s.member.codes[i].state.Active?
    requires Accepted(s.member, i, session, now).outcome == Succeeded
    ensures var s' := State(Accepted(s.member, i, session, now).member, s.log + [Granted(s.member.codes[i].id, now)]);
            OneActive(s'.member.codes) && CodesSound(s') && ActiveIndex(s'.member.codes).None?
  {
    hide Grants, WrongsAgainst;
    var codes, e := s.member.codes, Granted(s.member.codes[i].id, now);
    var after := Accepted(s.member, i, session, now).member;
    forall k | 0 <= k < |codes|
      ensures CodeSound(after.codes[k], after.login, s.log + [e]) && !after.codes[k].state.Active?
    {
      LogAppend(s.log, e, codes[k].id);
      assert CodeSound(codes[k], s.member.login, s.log);
    }
    forall id | NotIssued(after.codes, id) ensures Grants(s.log + [e], id) == 0 && WrongsAgainst(s.log + [e], id) == 0 {
      StillNotIssued(codes, after.codes, id);
      LogAppend(s.log, e, id);
      assert codes[i].id != id;
    }
  }

  /** The code that was tried gained a wrong code and the count one; a threshold retires it. */
  lemma RejectedCode(s: State, now: Time, k: nat)
    requires OneActive(s.member.codes) && CodesSound(s) && CountSound(s) && k < |s.member.codes|
    requires !s.member.login.IsLocked() && Rejected(s.member, now).outcome != Aborted
    ensures var trial := Rejected(s.member, now);
            && k < |trial.member.codes|
            && CodeSound(trial.member.codes[k], trial.member.login, s.log + [trial.entry.value])
  {
    hide Grants, WrongsAgainst, Streak, CountedTimes, FailuresAfter, Newest;
    var codes, trial := s.member.codes, Rejected(s.member, now);
    LogAppend(s.log, trial.entry.value, codes[k].id);
    assert CodeSound(codes[k], s.member.login, s.log);
    assert trial.member.codes[k].state.Active? ==> trial.outcome == Failed;
  }

  lemma RejectedSound(s: State, now: Time)
    requires OneActive(s.member.codes) && CodesSound(s) && CountSound(s) && s.member.codes != []
    requires !s.member.login.IsLocked() && Rejected(s.member, now).outcome != Aborted
    ensures var s' := State(Rejected(s.member, now).member, s.log + [Rejected(s.member, now).entry.value]);
            OneActive(s'.member.codes) && CodesSound(s')
  {
    hide Grants, WrongsAgainst, CountSound, FailuresAfter, Newest, CodeSound, Login.AfterFailure;
    var codes, trial := s.member.codes, Rejected(s.member, now);
    var e, after := trial.entry.value, trial.member;
    forall k | 0 <= k < |codes| ensures CodeSound(after.codes[k], after.login, s.log + [e]) {
      RejectedCode(s, now, k);
    }
    forall id | NotIssued(after.codes, id) ensures Grants(s.log + [e], id) == 0 && WrongsAgainst(s.log + [e], id) == 0 {
      StillNotIssued(codes, after.codes, id);
      LogAppend(s.log, e, id);
    }
  }

  lemma RejectedDay(m: Member, now: Time)
    requires DaySound(m) && !m.login.IsLocked() && m.codes != []
    ensures DaySound(Rejected(m, now).member)
  {
    hide FailuresAfter, FailuresWithin, Newest, Retired;
    var f := Failure(Newest(m.codes).id, now);
    var failures := m.failures + [f];
    forall x ensures FailuresInDay(failures, x) <= LOCK_THRESHOLD
                  && (FailuresAfter(failures, now - LOCK_WINDOW) < LOCK_THRESHOLD ==>
                      FailuresInDay(failures, x) < LOCK_THRESHOLD)
    {
      assert FailuresInDay(m.failures, x) <= LOCK_THRESHOLD - 1;
      FailuresAppend(m.failures, f, x, x + LOCK_WINDOW);
      if x < now <= x + LOCK_WINDOW {
        WithinIsAfter(failures, now - LOCK_WINDOW, x, x + LOCK_WINDOW);
      }
    }
  }

  lemma RejectedCount(s: State, now: Time)
    requires CountSound(s) && !s.member.login.IsLocked() && s.member.codes != []
             && Rejected(s.member, now).outcome != Aborted
    ensures CountSound(State(Rejected(s.member, now).member, s.log + [Rejected(s.member, now).entry.value]))
  {
    hide FailuresAfter, Newest, Retired, Streak, CountedTimes;
    var f, e := Failure(Newest(s.member.codes).id, now), Rejected(s.member, now).entry.value;
    LogAppend(s.log, e, 0);
    assert Times(s.member.failures + [f]) == Times(s.member.failures) + [now];
    var (login, outcome) := s.member.login.AfterFailure(now, FailuresAfter(s.member.failures + [f], now - LOCK_WINDOW));
    NextInThree(Streak(s.log), s.member.login.consecutive);
  }

  lemma NextInThree(streak: nat, n: nat)
    requires n == streak % BLOCK_THRESHOLD
    ensures (streak + 1) % BLOCK_THRESHOLD == if n + 1 >= BLOCK_THRESHOLD then 0 else n + 1
  {
  }

  /** A submission keeps every invariant. */
  lemma VerifiedSound(s: State, digest: Digest, session: Id, now: Time)
    requires Sound(s)
    ensures Sound(Step(s, Verify(digest, session, now)))
  {
    hide Grants, WrongsAgainst, Streak, CountedTimes, FailuresAfter, Newest, CodesSound, OneActive, Retired,
      FailuresInDay;
    var m := s.member;
    var trial := Verified(m, digest, session, now);
    if trial.entry.Some? {
      var swept := s.(member := m.(codes := Elapsed(m.codes, now)));
      AgedSound(s, swept);
      assert CountSound(swept);
      var i := ActiveIndex(swept.member.codes);
      if i.Some? && swept.member.codes[i.value].digest == digest {
        AcceptedSound(swept, i.value, session, now);
        LogAppend(s.log, trial.entry.value, 0);
      } else {
        RejectedSound(swept, now);
        RejectedDay(swept.member, now);
        RejectedCount(swept, now);
      }
    }
  }

  lemma UnlockSound(s: State, now: Time)
    requires Sound(s)
    ensures Sound(Step(s, Unlock(now)))
  {
    hide Grants, WrongsAgainst, Streak, CountedTimes, CodesSound, OneActive;
    var (member, outcome) := Freed(s.member, now);
    if outcome == Succeeded {
      LogAppend(s.log, Unlocked, 0);
      AgedSound(s, s.(member := member));
      NothingRetiredIsActive(s.member.codes);
      UnlockEntry(s.(member := member));
    }
  }

  lemma NothingRetiredIsActive(codes: seq<Challenge>)
    ensures ActiveIndex(Retired(codes, Revoked)).None?
  {
  }

  /** The unlock entry itself counts for no code. */
  lemma UnlockEntry(s: State)
    requires CodesSound(s)
    ensures CodesSound(s.(log := s.log + [Unlocked]))
  {
    hide Grants, WrongsAgainst;
    forall i | 0 <= i < |s.member.codes| ensures CodeSound(s.member.codes[i], s.member.login, s.log + [Unlocked]) {
      LogAppend(s.log, Unlocked, s.member.codes[i].id);
    }
    forall id
      ensures Grants(s.log + [Unlocked], id) == Grants(s.log, id)
              && WrongsAgainst(s.log + [Unlocked], id) == WrongsAgainst(s.log, id)
    {
      LogAppend(s.log, Unlocked, id);
    }
  }

  lemma IssueStepSound(s: State, id: Id, delivery: Id, digest: Digest, now: Time, taken: bool)
    requires Sound(s)
    ensures Sound(Step(s, Issue(id, delivery, digest, now, taken)))
  {
    hide Grants, WrongsAgainst, Streak, CountedTimes, CodesSound, OneActive, FailuresInDay;
    if Issued(s.member, id, delivery, digest, now, taken).1 == Succeeded {
      var retired := s.(member := s.member.(codes := Retired(s.member.codes, Superseded),
                                            deliveries := s.member.deliveries[delivery := Delivery(Pending, 0)]));
      AgedSound(s, retired);
      StillNotIssued(retired.member.codes, s.member.codes, id);
      IssuedSound(retired, Challenge(id, digest, Active, now, now + CODE_TTL));
    }
  }

  lemma RetireStepSound(s: State, c: Command)
    requires Sound(s) && (c.DeliveryFailed? || c.Delivered? || c.Revoke? || c.Reactivate?)
    ensures Sound(Step(s, c))
  {
    hide Grants, WrongsAgainst, Streak, CountedTimes, CodesSound, OneActive, FailuresInDay;
    AgedSound(s, Step(s, c));
  }

  /** Every transaction keeps every invariant, from any state and at any clock. */
  lemma StepSound(s: State, c: Command)
    requires Sound(s)
    ensures Sound(Step(s, c))
  {
    hide Sound, Step;
    match c {
      case Issue(id, delivery, digest, now, taken) => IssueStepSound(s, id, delivery, digest, now, taken);
      case Verify(digest, session, now) => VerifiedSound(s, digest, session, now);
      case Unlock(now) => UnlockSound(s, now);
      case _ => RetireStepSound(s, c);
    }
  }

  lemma FreshSound()
    ensures Sound(FRESH)
  {
  }

  lemma {:induction false} RunSound(commands: seq<Command>)
    ensures Sound(Run(FRESH, commands))
  {
    hide Sound, Step;
    if commands == [] {
      FreshSound();
    } else {
      RunSound(commands[..|commands| - 1]);
      StepSound(Run(FRESH, commands[..|commands| - 1]), commands[|commands| - 1]);
    }
  }

  // ---- What that gives every run --------------------------------------------------------------

  /** At most one code is active. */
  lemma AtMostOneActive(commands: seq<Command>, i: nat, j: nat)
    ensures var codes := Run(FRESH, commands).member.codes;
            i < |codes| && j < |codes| && codes[i].state.Active? && codes[j].state.Active? ==> i == j
  {
    RunSound(commands);
    hide Run;
  }

  /** A code lets somebody in at most once, and faces at most three wrong codes while active. */
  lemma CodeUse(commands: seq<Command>, code: Id)
    ensures var log := Run(FRESH, commands).log;
            Grants(log, code) <= 1 && WrongsAgainst(log, code) <= BLOCK_THRESHOLD
  {
    RunSound(commands);
    hide Run, Grants, WrongsAgainst;
    var s := Run(FRESH, commands);
    if i :| 0 <= i < |s.member.codes| && s.member.codes[i].id == code {
      assert CodeSound(s.member.codes[i], s.member.login, s.log);
    } else {
      assert NotIssued(s.member.codes, code);
    }
  }

  function Between(times: seq<Time>, x: Time, y: Time): nat {
    if times == [] then 0
    else Between(times[..|times| - 1], x, y) + if x < times[|times| - 1] <= y then 1 else 0
  }

  lemma {:induction false} TimesBetween(failures: seq<Failure>, x: Time, y: Time)
    ensures Between(Times(failures), x, y) == FailuresWithin(failures, x, y)
  {
    if failures != [] {
      TimesBetween(failures[..|failures| - 1], x, y);
      assert Times(failures)[..|failures| - 1] == Times(failures[..|failures| - 1]);
    }
  }

  /** Any 24 hours hold at most ten wrong codes counted since the last unlock, whatever the
      order of the clocks; one more than nine means the member is locked out. */
  lemma DayHoldsTen(commands: seq<Command>, x: Time)
    ensures var s := Run(FRESH, commands);
            && Between(CountedTimes(s.log), x, x + LOCK_WINDOW) <= LOCK_THRESHOLD
            && (Between(CountedTimes(s.log), x, x + LOCK_WINDOW) == LOCK_THRESHOLD ==> s.member.login.IsLocked())
  {
    RunSound(commands);
    hide Run, Between, FailuresWithin, Times, CountedTimes;
    var s := Run(FRESH, commands);
    TimesBetween(s.member.failures, x, x + LOCK_WINDOW);
    assert FailuresInDay(s.member.failures, x) <= LOCK_THRESHOLD - (if s.member.login.IsLocked() then 0 else 1);
  }

  /** A counted wrong code locks on the tenth in a day, else blocks on every third in a row. */
  lemma EveryThirdBlocks(commands: seq<Command>, digest: Digest, session: Id, now: Time)
    requires var trial := Verified(Run(FRESH, commands).member, digest, session, now);
             trial.entry.Some? && trial.entry.value.Wrong?
    ensures var s := Run(FRESH, commands);
            var s' := Step(s, Verify(digest, session, now));
            Verified(s.member, digest, session, now).outcome
            == if FailuresAfter(s'.member.failures, now - LOCK_WINDOW) >= LOCK_THRESHOLD then Locked
               else if Streak(s'.log) % BLOCK_THRESHOLD == 0 then Blocked else Failed
  {
    RunSound(commands);
    hide Run, FailuresAfter, Newest, Streak, CountedTimes, CodesSound, OneActive, DaySound, Retired;
    var s := Run(FRESH, commands);
    var trial := Verified(s.member, digest, session, now);
    LogAppend(s.log, trial.entry.value, 0);
    NextInThree(Streak(s.log), s.member.login.consecutive);
  }

  /** Crossing a threshold starts the block or the lock there and then and retires the
      outstanding code; below it the code stays as it was, unless its time was up. */
  lemma ThresholdRetires(m: Member, digest: Digest, session: Id, now: Time)
    requires var trial := Verified(m, digest, session, now); trial.entry.Some? && trial.entry.value.Wrong?
    ensures var trial := Verified(m, digest, session, now);
            && (trial.outcome == Blocked ==> forall t :: trial.member.login.BlockedAt(t) <==> t < now + BLOCK_DURATION)
            && (trial.outcome == Locked ==> trial.member.login.lockedAt == Some(now))
            && (trial.outcome != Failed ==> ActiveIndex(trial.member.codes).None?)
            && (trial.outcome == Failed ==>
                trial.member.codes == Elapsed(m.codes, now) && trial.member.login.lockedAt == m.login.lockedAt)
            && trial.member.sessions == m.sessions
  {
    hide FailuresAfter, Newest, Elapsed;
  }

  /** An unlock leaves nothing standing: no lock, no block, no count and no code. */
  lemma UnlockFrees(s: State, now: Time)
    requires Freed(s.member, now).1 == Succeeded
    ensures var s' := Step(s, Unlock(now));
            && !s'.member.login.IsLocked() && (forall t :: !s'.member.login.BlockedAt(t))
            && CountedTimes(s'.log) == [] && Streak(s'.log) == 0 && s'.member.failures == []
            && ActiveIndex(s'.member.codes).None? && s'.member.sessions == s.member.sessions
               && s'.member.active == s.member.active
  {
    LogAppend(s.log, Unlocked, 0);
    NothingRetiredIsActive(s.member.codes);
  }

  ghost predicate Timed(codes: seq<Challenge>) {
    forall i :: 0 <= i < |codes| ==> codes[i].expiresAt == codes[i].createdAt + CODE_TTL
  }

  lemma {:induction false} CodesTimed(commands: seq<Command>)
    ensures Timed(Run(FRESH, commands).member.codes)
  {
    if commands != [] {
      hide Step, Timed;
      CodesTimed(commands[..|commands| - 1]);
      StepTimed(Run(FRESH, commands[..|commands| - 1]), commands[|commands| - 1]);
    } else {
      NoneTimed();
    }
  }

  lemma NoneTimed()
    ensures Timed([])
  {
  }

  lemma VerifiedTimed(m: Member, digest: Digest, session: Id, now: Time)
    requires Timed(m.codes)
    ensures Timed(Verified(m, digest, session, now).member.codes)
  {
    hide FailuresAfter, Newest, Login.AfterFailure;
  }

  lemma StepTimed(s: State, c: Command)
    requires Timed(s.member.codes)
    ensures Timed(Step(s, c).member.codes)
  {
    hide Verified;
    if c.Verify? { VerifiedTimed(s.member, c.digest, c.session, c.now); }
  }

  /** A code lets somebody in within ten minutes of its issue, or never. */
  lemma GrantedInTime(commands: seq<Command>, digest: Digest, session: Id, now: Time)
    requires Verified(Run(FRESH, commands).member, digest, session, now).outcome == Succeeded
    ensures exists code :: code in Run(FRESH, commands).member.codes && code.state.Active? && code.digest == digest
                           && code.createdAt <= now < code.createdAt + CODE_TTL
  {
    SucceedsExactly(commands, digest, session, now);
    CodesTimed(commands);
    hide Run, Verified;
    var codes := Run(FRESH, commands).member.codes;
    var i :| 0 <= i < |codes| && codes[i].state.Active? && codes[i].digest == digest
      && codes[i].createdAt <= now < codes[i].expiresAt;
    assert codes[i] in codes;
  }

  /** Exactly when a submission lets the member in. */
  lemma SucceedsExactly(commands: seq<Command>, digest: Digest, session: Id, now: Time)
    ensures var m := Run(FRESH, commands).member;
            Verified(m, digest, session, now).outcome == Succeeded
            <==> m.active && !m.login.IsLocked() && !m.login.BlockedAt(now)
                 && exists i :: 0 <= i < |m.codes| && m.codes[i].state.Active? && m.codes[i].digest == digest
                                && m.codes[i].createdAt <= now < m.codes[i].expiresAt
  {
    RunSound(commands);
    hide Run, FailuresAfter, Newest, CodesSound, DaySound, CountSound, Retired;
    var m := Run(FRESH, commands).member;
    var swept := Elapsed(m.codes, now);
    var at := ActiveIndex(swept);
    if i :|
      0 <= i < |m.codes| && m.codes[i].state.Active? && m.codes[i].digest == digest
      && m.codes[i].createdAt <= now < m.codes[i].expiresAt
    {
      assert swept[i].state.Active?;
      assert at.Some? && m.codes[at.value].state.Active?;
      assert OneActive(m.codes);
      assert at == Some(i);
    } else if at.Some? {
      assert swept[at.value] == m.codes[at.value];
    }
  }

  /** With a clock no earlier than the outstanding code's creation, a submission that is
      neither blocked nor locked out is granted or counted once any code was issued. */
  lemma GrantedOrCounted(m: Member, digest: Digest, session: Id, now: Time)
    requires m.active && !m.login.IsLocked() && !m.login.BlockedAt(now) && m.codes != [] && Stampable(m.codes, now)
    ensures Verified(m, digest, session, now).entry.Some?
  {
    hide FailuresWithin, Newest, Retired;
    var swept := m.(codes := Elapsed(m.codes, now));
    FailuresAppend(m.failures, Failure(Newest(swept.codes).id, now), now - LOCK_WINDOW, now);
  }

  /** While blocked or locked, a submission is neither compared nor counted, whatever it holds. */
  lemma RefusedUnread(s: State, digest: Digest, session: Id, now: Time)
    requires s.member.login.IsLocked() || s.member.login.BlockedAt(now)
    ensures Step(s, Verify(digest, session, now)) == s
    ensures forall other, id :: Verified(s.member, other, id, now) == Verified(s.member, digest, session, now)
  {
  }

  ghost predicate NoUnlock(commands: seq<Command>) {
    forall c :: c in commands ==> !c.Unlock?
  }

  /** A lock lasts until an owner unlocks: nothing is issued, granted or counted before. */
  lemma {:induction false} LockHolds(s: State, commands: seq<Command>)
    requires s.member.login.IsLocked() && NoUnlock(commands)
    ensures var later := Run(s, commands);
            && later.member.login == s.member.login && later.log == s.log && later.member.failures == s.member.failures
            && later.member.sessions == s.member.sessions && |later.member.codes| == |s.member.codes|
  {
    if commands != [] {
      LockHolds(s, commands[..|commands| - 1]);
      assert commands[|commands| - 1] in commands;
    }
  }

  /** A block lasts until its moment, or an owner's unlock. */
  lemma {:induction false} BlockHolds(s: State, commands: seq<Command>)
    requires s.member.login.blockedUntil.Some? && NoUnlock(commands)
    requires forall c :: c in commands ==> c.now < s.member.login.blockedUntil.value
    ensures var later := Run(s, commands);
            && later.member.login == s.member.login && later.log == s.log && later.member.failures == s.member.failures
            && later.member.sessions == s.member.sessions && |later.member.codes| == |s.member.codes|
  {
    if commands != [] {
      BlockHolds(s, commands[..|commands| - 1]);
      assert commands[|commands| - 1] in commands;
    }
  }

  /** Every email is attempted at most once: it is pending, or it settled and stays as it did. */
  ghost predicate SettledOnce(deliveries: map<Id, Delivery>) {
    forall id :: id in deliveries ==> deliveries[id].attempts == if deliveries[id].state.Pending? then 0 else 1
  }

  lemma StepSettles(s: State, c: Command)
    requires SettledOnce(s.member.deliveries)
    ensures SettledOnce(Step(s, c).member.deliveries)
    ensures forall id :: id in s.member.deliveries && !s.member.deliveries[id].state.Pending? ==>
              id in Step(s, c).member.deliveries && Step(s, c).member.deliveries[id] == s.member.deliveries[id]
  {
    hide FailuresAfter, Newest, Login.AfterFailure;
  }

  lemma {:induction false} DeliveriesSettleOnce(commands: seq<Command>)
    ensures SettledOnce(Run(FRESH, commands).member.deliveries)
  {
    hide Step;
    if commands != [] {
      DeliveriesSettleOnce(commands[..|commands| - 1]);
      StepSettles(Run(FRESH, commands[..|commands| - 1]), commands[|commands| - 1]);
    }
  }
}
