/** What a member and an owner can count on: an issued code lets its holder in, once, in time, and
    nobody else; what retires a code retires that one; and what is refused leaves no trace. */
module MemberCodes {
  import opened Prelude
  import opened MemberThrottle

  /** An issue finds an active member, neither locked nor blocked, identifiers not used before, a
      digest no other member's active code has, and a clock that can retire what is outstanding. */
  ghost predicate CanIssue(m: Member, id: Id, delivery: Id, now: Time, taken: bool) {
    && m.active && m.login.lockedAt.None? && (m.login.blockedUntil.Some? ==> m.login.blockedUntil.value <= now)
    && !taken && delivery !in m.deliveries && (forall c :: c in m.codes ==> c.id != id)
    && forall c :: c in m.codes && c.state.Active? ==> c.createdAt <= now
  }

  /** It succeeds exactly then, and otherwise says why not. */
  lemma IssueOutcome(m: Member, id: Id, delivery: Id, digest: Digest, now: Time, taken: bool)
    ensures Issued(m, id, delivery, digest, now, taken).1
         == if !m.active then Failed
            else if m.login.lockedAt.Some? then Locked
            else if m.login.blockedUntil.Some? && now < m.login.blockedUntil.value then Blocked
            else if CanIssue(m, id, delivery, now, taken) then Succeeded else Aborted
  {
    assert forall i :: 0 <= i < |m.codes| ==> m.codes[i] in m.codes;
  }

  /** It changes something exactly then: one more code, the outstanding ones superseded, one more
      email to send; and nothing of the throttle, the failures, the sessions or the log. */
  lemma IssueMeans(s: State, id: Id, delivery: Id, digest: Digest, now: Time, taken: bool)
    ensures var s' := Step(s, Issue(id, delivery, digest, now, taken));
            var m, m' := s.member, s'.member;
            && (CanIssue(m, id, delivery, now, taken) <==> s' != s)
            && s'.log == s.log && m'.login == m.login && m'.failures == m.failures && m'.sessions == m.sessions
            && m'.active == m.active
            && (s' != s ==>
                  && |m'.codes| == |m.codes| + 1 && m'.codes[|m.codes|].state.Active? && m'.codes[|m.codes|].id == id
                  && m'.deliveries == m.deliveries[delivery := Delivery(Pending, 0)]
                  && forall i :: 0 <= i < |m.codes| ==>
                       m'.codes[i] == if m.codes[i].state.Active? then m.codes[i].(state := Superseded) else m.codes[i])
  {
    assert forall i :: 0 <= i < |s.member.codes| ==> s.member.codes[i] in s.member.codes;
  }

  /** The issued code lets its holder in: from its issue for ten minutes that digest succeeds, and
      no other does at any time, nor it before or after; the submission is given its session and
      is logged for that code, which then lets nobody in again. */
  lemma IssuedCodeLetsIn(s: State, id: Id, delivery: Id, digest: Digest, now: Time, taken: bool)
    requires CanIssue(s.member, id, delivery, now, taken)
    ensures var s' := Step(s, Issue(id, delivery, digest, now, taken));
            forall other, session, t ::
              && (Verified(s'.member, other, session, t).outcome == Succeeded
                  <==> other == digest && now <= t < now + CODE_TTL)
              && (other == digest && now <= t < now + CODE_TTL ==>
                  LetIn(s', Step(s', Verify(other, session, t)), id, session, t))
  {
    hide Newest, FailuresAfter, Login.AfterFailure, Issued, Verified;
    var s' := Step(s, Issue(id, delivery, digest, now, taken));
    OnlyTheNewest(s.member, id, delivery, digest, now, taken);
    forall other, session, t
      ensures Verified(s'.member, other, session, t).outcome == Succeeded
              <==> other == digest && now <= t < now + CODE_TTL
      ensures other == digest && now <= t < now + CODE_TTL ==>
              LetIn(s', Step(s', Verify(other, session, t)), id, session, t)
    {
      TriedAgainst(s', id, digest, now, other, session, t);
    }
  }

  /** The submission had its session, its entry, and a clean throttle; its code is used up. */
  ghost predicate LetIn(s: State, s': State, id: Id, session: Id, t: Time) {
    && s'.member.sessions == s.member.sessions + [session] && s'.log == s.log + [Granted(id, t)]
    && s'.member.login == CLEARED && s'.member.failures == s.member.failures
    && forall c :: c in s'.member.codes ==> !c.state.Active?
  }

  /** The one active code is this one. */
  ghost predicate OnlyActive(codes: seq<Challenge>, id: Id, digest: Digest, createdAt: Time) {
    && codes != [] && codes[|codes| - 1] == Challenge(id, digest, Active, createdAt, createdAt + CODE_TTL)
    && forall i :: 0 <= i < |codes| - 1 ==> !codes[i].state.Active?
  }

  lemma OnlyTheNewest(m: Member, id: Id, delivery: Id, digest: Digest, now: Time, taken: bool)
    requires CanIssue(m, id, delivery, now, taken)
    ensures var m' := Issued(m, id, delivery, digest, now, taken).0;
            && m'.active && !m'.login.IsLocked() && OnlyActive(m'.codes, id, digest, now)
            && forall t :: t >= now ==> !m'.login.BlockedAt(t)
  {
    assert forall i :: 0 <= i < |m.codes| ==> m.codes[i] in m.codes;
  }

  lemma TriedAgainst(s: State, id: Id, digest: Digest, createdAt: Time, other: Digest, session: Id, t: Time)
    requires s.member.active && !s.member.login.IsLocked() && OnlyActive(s.member.codes, id, digest, createdAt)
    requires forall x :: x >= createdAt ==> !s.member.login.BlockedAt(x)
    ensures Verified(s.member, other, session, t).outcome == Succeeded
       <==> other == digest && createdAt <= t < createdAt + CODE_TTL
    ensures other == digest && createdAt <= t < createdAt + CODE_TTL ==>
              LetIn(s, Step(s, Verify(other, session, t)), id, session, t)
  {
    hide Newest, FailuresAfter;
    var swept := Elapsed(s.member.codes, t);
    var last := |swept| - 1;
    if t < createdAt + CODE_TTL {
      assert ActiveIndex(swept) == Some(last);
    } else {
      assert forall i :: 0 <= i < |swept| ==> !swept[i].state.Active?;
      assert ActiveIndex(swept).None?;
    }
  }

  /** Why a submission is not looked at. */
  lemma RefusalOutcome(m: Member, digest: Digest, session: Id, now: Time)
    ensures var trial := Verified(m, digest, session, now);
            && (!m.active ==> trial.outcome == Failed)
            && (m.active && m.login.lockedAt.Some? ==> trial.outcome == Locked)
            && (m.active && m.login.lockedAt.None? && m.login.blockedUntil.Some? && now < m.login.blockedUntil.value ==>
                  trial.outcome == Blocked)
            && (!m.active || m.login.lockedAt.Some? || m.codes == []
                || (m.login.blockedUntil.Some? && now < m.login.blockedUntil.value) ==>
                  trial.member == m && trial.entry.None?)
            && (m.active && m.login.lockedAt.None? && m.login.blockedUntil.None? && m.codes == [] ==>
                trial.outcome == Failed)
  {
    hide Newest, FailuresAfter;
  }

  /** An unlock clears the throttle, forgets the failures and retires every active code, or does
      nothing at all with a clock before one of them. */
  lemma UnlockMeans(s: State, now: Time)
    ensures var freed, m := Step(s, Unlock(now)), s.member;
            if forall c :: c in m.codes && c.state.Active? ==> c.createdAt <= now
            then && freed.log == s.log + [Unlocked] && freed.member.login == Login(0, None, None)
                 && freed.member.failures == [] && freed.member.sessions == m.sessions
                 && freed.member.active == m.active && freed.member.deliveries == m.deliveries
                 && |freed.member.codes| == |m.codes|
                 && forall i :: 0 <= i < |m.codes| ==>
                      freed.member.codes[i] == if m.codes[i].state.Active? then m.codes[i].(state := Revoked)
                        else m.codes[i]
            else freed == s
  {
    assert forall i :: 0 <= i < |s.member.codes| ==> s.member.codes[i] in s.member.codes;
  }

  /** A failed delivery, and a success, touch what they name and nothing else. */
  lemma DeliveryMeans(s: State, id: Id, delivery: Id, now: Time)
    ensures var failed, m := Step(s, DeliveryFailed(id, delivery, now)), s.member;
            var held := forall c :: c in m.codes && c.id == id && c.state.Active? ==> c.createdAt <= now;
            && failed.log == s.log && failed.member.(codes := m.codes, deliveries := m.deliveries) == m
            && |failed.member.codes| == |m.codes|
            && (forall i :: 0 <= i < |m.codes| ==>
                  failed.member.codes[i] == if held && m.codes[i].id == id && m.codes[i].state.Active?
                    then m.codes[i].(state := Revoked) else m.codes[i])
            && failed.member.deliveries
               == (if held && delivery in m.deliveries && m.deliveries[delivery].state.Pending?
                   then m.deliveries[delivery := Delivery(Undeliverable, m.deliveries[delivery].attempts + 1)]
                     else m.deliveries)
    ensures var sent, m := Step(s, Delivered(delivery, now)), s.member;
            && sent.log == s.log && sent.member.(deliveries := m.deliveries) == m
            && sent.member.deliveries
               == (if delivery in m.deliveries && m.deliveries[delivery].state.Pending?
                   then m.deliveries[delivery := Delivery(Sent, m.deliveries[delivery].attempts + 1)] else m.deliveries)
  {
    assert forall i :: 0 <= i < |s.member.codes| ==> s.member.codes[i] in s.member.codes;
  }

  /** Deactivating a member and rotating the key retire every active code, or do nothing at all
      with a clock before one of them; reactivating sets the flag alone. */
  lemma RevokeMeans(s: State, now: Time, active: bool)
    ensures var revoked, m := Step(s, Revoke(now, active)), s.member;
            if forall c :: c in m.codes && c.state.Active? ==> c.createdAt <= now
            then && revoked.log == s.log && revoked.member.(codes := m.codes, active := m.active) == m
                 && revoked.member.active == active && |revoked.member.codes| == |m.codes|
                 && forall i :: 0 <= i < |m.codes| ==>
                      revoked.member.codes[i] == if m.codes[i].state.Active? then m.codes[i].(state := Revoked)
                        else m.codes[i]
            else revoked == s
    ensures Step(s, Reactivate(now)) == s.(member := s.member.(active := true))
  {
    assert forall i :: 0 <= i < |s.member.codes| ==> s.member.codes[i] in s.member.codes;
  }
}
