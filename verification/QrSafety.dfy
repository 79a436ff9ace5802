/** Safety of the QR login session in every run. */
module QrSafety {
  import opened Wrappers
  import opened Auth

  /** How far a session has come; the last two ranks are final. */
  function Rank(status: QrStatus): nat {
    match status
    case Pending => 0
    case Approved => 1
    case Consumed => 2
    case Expired => 2
  }

  /** One session's move: forward or not at all, with its deadline and, once bound, its user unchanged. */
  ghost predicate MovesForward(before: QrSession, after: QrSession) {
    && (after.status == before.status || Rank(before.status) < Rank(after.status))
    && after.expiresAt == before.expiresAt
    && (before.status != Pending ==> after.userId == before.userId)
  }

  ghost predicate SessionsMoveForward(w: World, w': World) {
    forall sid :: sid in w.db.sessions ==>
      sid in w'.db.sessions && MovesForward(w.db.sessions[sid], w'.db.sessions[sid])
  }

  ghost predicate IdsAreNew(db: Db) {
    forall sid :: sid in db.sessions ==> sid < db.nextSession
  }

  predicate AboutQr(e: Event) {
    e.action.StartQr? || e.action.PollQr? || e.action.ApproveQr? || e.action.BotLink?
  }

  lemma OtherStepsLeaveSessions(w: World, e: Event)
    requires !AboutQr(e)
    ensures var w' := Step(w, e);
            && w'.db.sessions == w.db.sessions && w'.db.nextSession == w.db.nextSession
            && w'.log.approvals == w.log.approvals && w'.log.redemptions == w.log.redemptions
  {
  }

  lemma PollMovesForward(w: World, e: Event)
    requires IdsAreNew(w.db) && e.action.PollQr?
    ensures IdsAreNew(Step(w, e).db) && SessionsMoveForward(w, Step(w, e))
  {
  }

  lemma ApprovalMovesForward(w: World, e: Event)
    requires IdsAreNew(w.db) && e.action.ApproveQr?
    ensures IdsAreNew(Step(w, e).db) && SessionsMoveForward(w, Step(w, e))
  {
  }

  lemma NewSessionMovesForward(w: World, e: Event)
    requires IdsAreNew(w.db) && (e.action.StartQr? || e.action.BotLink?)
    ensures IdsAreNew(Step(w, e).db) && SessionsMoveForward(w, Step(w, e))
  {
  }

  lemma StepMovesForward(w: World, e: Event)
    requires IdsAreNew(w.db)
    ensures IdsAreNew(Step(w, e).db) && SessionsMoveForward(w, Step(w, e))
  {
    if !AboutQr(e) {
      OtherStepsLeaveSessions(w, e);
    } else if e.action.PollQr? {
      PollMovesForward(w, e);
    } else if e.action.ApproveQr? {
      ApprovalMovesForward(w, e);
    } else {
      NewSessionMovesForward(w, e);
    }
  }

  /** In every run consumed and expired are final and status only moves forward. */
  lemma {:induction false} RunMovesForward(w: World, events: seq<Event>)
    requires IdsAreNew(w.db)
    ensures IdsAreNew(Run(w, events).db) && SessionsMoveForward(w, Run(w, events))
  {
    if |events| > 0 {
      RunMovesForward(w, events[..|events| - 1]);
      StepMovesForward(Run(w, events[..|events| - 1]), events[|events| - 1]);
    }
  }

  /** A redemption was made in time, for the approved user, and left its session consumed. */
  ghost predicate RedemptionHolds(w: World, r: Redemption) {
    && r.session in w.db.sessions
    && w.db.sessions[r.session].status.Consumed?
    && r.at < w.db.sessions[r.session].expiresAt
    && w.db.sessions[r.session].userId == Some(r.userId)
  }

  /** An approved or consumed session belongs to the user it was approved for. */
  ghost predicate BoundAsApproved(w: World) {
    forall sid ::
      sid in w.db.sessions && (w.db.sessions[sid].status.Approved? || w.db.sessions[sid].status.Consumed?) ==>
      sid in w.log.approvals && w.db.sessions[sid].userId == Some(w.log.approvals[sid])
  }

  ghost predicate RedemptionsHold(w: World) {
    && (forall k :: 0 <= k < |w.log.redemptions| ==> RedemptionHolds(w, w.log.redemptions[k]))
    && (forall i, k :: 0 <= i < k < |w.log.redemptions| ==>
          w.log.redemptions[i].session != w.log.redemptions[k].session)
  }

  ghost predicate SessionsHold(w: World) {
    IdsAreNew(w.db) && BoundAsApproved(w) && RedemptionsHold(w)
  }

  lemma PollKeepsBound(w: World, e: Event)
    requires BoundAsApproved(w) && e.action.PollQr?
    ensures BoundAsApproved(Step(w, e))
  {
  }

  lemma ApprovalKeepsBound(w: World, e: Event)
    requires BoundAsApproved(w) && e.action.ApproveQr?
    ensures BoundAsApproved(Step(w, e))
  {
  }

  lemma NewSessionKeepsBound(w: World, e: Event)
    requires BoundAsApproved(w) && IdsAreNew(w.db) && (e.action.StartQr? || e.action.BotLink?)
    ensures BoundAsApproved(Step(w, e))
  {
  }

  /** What was redeemed stays redeemed: the session is final. */
  lemma RedemptionStays(w: World, w': World, r: Redemption)
    requires RedemptionHolds(w, r) && SessionsMoveForward(w, w')
    ensures RedemptionHolds(w', r)
  {
  }

  lemma PollKeepsRedemptions(w: World, e: Event)
    requires RedemptionsHold(w) && SessionsMoveForward(w, Step(w, e)) && e.action.PollQr?
    ensures RedemptionsHold(Step(w, e))
  {
    var w' := Step(w, e);
    forall k | 0 <= k < |w.log.redemptions| ensures RedemptionHolds(w', w.log.redemptions[k]) {
      RedemptionStays(w, w', w.log.redemptions[k]);
    }
    if Redeems(w, e.action.sid, e.at) {
      var r := Redemption(e.action.sid, w.db.sessions[e.action.sid].userId.value, e.at);
      assert w'.log.redemptions == w.log.redemptions + [r];
      assert RedemptionHolds(w', r);
    } else {
      assert w'.log.redemptions == w.log.redemptions;
    }
  }

  lemma OthersKeepRedemptions(w: World, e: Event)
    requires RedemptionsHold(w) && SessionsMoveForward(w, Step(w, e)) && !e.action.PollQr?
    ensures RedemptionsHold(Step(w, e))
  {
    var w' := Step(w, e);
    assert w'.log.redemptions == w.log.redemptions;
    forall k | 0 <= k < |w.log.redemptions| ensures RedemptionHolds(w', w.log.redemptions[k]) {
      RedemptionStays(w, w', w.log.redemptions[k]);
    }
  }

  lemma StepKeepsBound(w: World, e: Event)
    requires BoundAsApproved(w) && IdsAreNew(w.db)
    ensures BoundAsApproved(Step(w, e))
  {
    if !AboutQr(e) {
      OtherStepsLeaveSessions(w, e);
    } else if e.action.PollQr? {
      PollKeepsBound(w, e);
    } else if e.action.ApproveQr? {
      ApprovalKeepsBound(w, e);
    } else {
      NewSessionKeepsBound(w, e);
    }
  }

  lemma StepKeepsRedemptions(w: World, e: Event)
    requires RedemptionsHold(w) && IdsAreNew(w.db)
    ensures RedemptionsHold(Step(w, e))
  {
    StepMovesForward(w, e);
    if e.action.PollQr? {
      PollKeepsRedemptions(w, e);
    } else {
      OthersKeepRedemptions(w, e);
    }
  }

  lemma {:induction false} RunKeepsSessions(w: World, events: seq<Event>)
    requires SessionsHold(w)
    ensures SessionsHold(Run(w, events))
  {
    if |events| > 0 {
      var w1, e := Run(w, events[..|events| - 1]), events[|events| - 1];
      RunKeepsSessions(w, events[..|events| - 1]);
      StepMovesForward(w1, e);
      StepKeepsBound(w1, e);
      StepKeepsRedemptions(w1, e);
    }
  }

  /**
   In every run a session hands out tokens at most once, before its deadline, and to the user it was
   bound to when it was approved.
   */
  lemma {:induction false} RedeemedOnceInTimeByApprovedUser(events: seq<Event>, k: nat, m: nat)
    requires k < |Run(EMPTY, events).log.redemptions|
    ensures var w := Run(EMPTY, events);
            var r := w.log.redemptions[k];
            && r.session in w.db.sessions && r.session in w.log.approvals
            && r.at < w.db.sessions[r.session].expiresAt
            && r.userId == w.log.approvals[r.session]
            && (m < |w.log.redemptions| && w.log.redemptions[m].session == r.session ==> m == k)
  {
    RunKeepsSessions(EMPTY, events);
    assert RedemptionHolds(Run(EMPTY, events), Run(EMPTY, events).log.redemptions[k]);
  }

  /** The user recorded at approval is the account of the Telegram user that the bot named. */
  lemma ApprovalBindsTelegramUser(w: World, sid: SessionId, tg: TelegramId, now: Instant)
    requires sid in w.db.sessions && w.db.sessions[sid].status.Pending? && !TimedOut(w.db.sessions[sid], now)
    requires ValidTelegramId(tg)
    ensures var w' := QrApproved(w, sid, tg, now);
            && w'.db.sessions[sid].status.Approved? && tg in w'.db.telegram
            && w'.db.sessions[sid].userId == Some(w'.db.telegram[tg])
            && w'.log.approvals[sid] == w'.db.telegram[tg]
            && (tg in w.db.telegram ==> w'.db.telegram[tg] == w.db.telegram[tg] && w'.db.accounts == w.db.accounts)
  {
  }

  /** A session that is consumed or expired answers no later poll with tokens, whatever happens in between. */
  lemma {:induction false} FinalSessionsNeverRedeem(w: World, events: seq<Event>, sid: SessionId, now: Instant)
    requires IdsAreNew(w.db) && sid in w.db.sessions && Rank(w.db.sessions[sid].status) == 2
    ensures !Redeems(Run(w, events), sid, now)
    ensures sid in Run(w, events).db.sessions && Run(w, events).db.sessions[sid].status == w.db.sessions[sid].status
  {
    RunMovesForward(w, events);
  }
}
