/** A QR login that is approved and polled in time succeeds, whatever else goes on meanwhile. */
module QrCompletion {
  import opened Wrappers
  import opened Auth

  /** The account that a Telegram user has, or would be given. */
  function AccountFor(db: Db, tg: TelegramId): UserId {
    if tg in db.telegram then db.telegram[tg] else db.nextUser
  }

  // ---------- waiting for approval ----------

  predicate Waiting(w: World, sid: SessionId, deadline: Instant) {
    && sid in w.db.sessions && sid < w.db.nextSession
    && w.db.sessions[sid] == QrSession(Pending, None, None, deadline)
  }

  /** The bot approves the session. */
  predicate Approves(a: Action, sid: SessionId) {
    a.ApproveQr? && a.sid == sid && a.trusted
  }

  lemma StartWaits(w: World, now: Instant)
    ensures Waiting(Step(w, Event(now, StartQr)), w.db.nextSession, now + 120 * SECOND)
  {
  }

  predicate AboutQr(a: Action) {
    a.StartQr? || a.PollQr? || a.ApproveQr? || a.BotLink?
  }

  lemma QrStepKeepsWaiting(w: World, e: Event, sid: SessionId, deadline: Instant)
    requires Waiting(w, sid, deadline) && e.at < deadline && !Approves(e.action, sid) && AboutQr(e.action)
    ensures Waiting(Step(w, e), sid, deadline)
  {
  }

  lemma StepKeepsWaiting(w: World, e: Event, sid: SessionId, deadline: Instant)
    requires Waiting(w, sid, deadline) && e.at < deadline && !Approves(e.action, sid)
    ensures Waiting(Step(w, e), sid, deadline)
  {
    if AboutQr(e.action) {
      QrStepKeepsWaiting(w, e, sid, deadline);
    }
  }

  lemma {:induction false} RunKeepsWaiting(w: World, events: seq<Event>, start: Instant, now: Instant, sid: SessionId,
                                           deadline: Instant)
    requires Waiting(w, sid, deadline) && Chronological(events, start, now) && now < deadline
    requires forall i :: 0 <= i < |events| ==> !Approves(events[i].action, sid)
    ensures Waiting(Run(w, events), sid, deadline)
  {
    if |events| > 0 {
      var init, e := events[..|events| - 1], events[|events| - 1];
      RunKeepsWaiting(w, init, start, e.at, sid, deadline);
      StepKeepsWaiting(Run(w, init), e, sid, deadline);
    }
  }

  // ---------- approved ----------

  predicate Ready(w: World, sid: SessionId, uid: UserId, tg: TelegramId, deadline: Instant) {
    && sid in w.db.sessions && sid < w.db.nextSession && Usable(w.db, uid)
    && w.db.sessions[sid] == QrSession(Approved, Some(uid), Some(tg), deadline)
  }

  /** The request neither asks for the session's tokens nor suspends the account. */
  predicate LeavesReady(a: Action, sid: SessionId, uid: UserId) {
    && !(a.PollQr? && a.sid == sid)
    && !(a.SetActive? && a.uid == uid && !a.active)
  }

  /** The Telegram user's account, if there is one yet, is active. */
  predicate Welcome(db: Db, tg: TelegramId) {
    tg in db.telegram ==> Usable(db, db.telegram[tg])
  }

  lemma ApprovalReadies(w: World, sid: SessionId, tg: TelegramId, now: Instant, deadline: Instant)
    requires Waiting(w, sid, deadline) && now < deadline && 1 <= tg <= 0x7FFF_FFFF_FFFF_FFFF && Welcome(w.db, tg)
    ensures Ready(Step(w, Event(now, ApproveQr(sid, tg, true))), sid, AccountFor(w.db, tg), tg, deadline)
  {
  }

  lemma LinkReadies(w: World, tg: TelegramId, now: Instant)
    requires 1 <= tg <= 0x7FFF_FFFF_FFFF_FFFF && Welcome(w.db, tg)
    ensures Ready(Step(w, Event(now, BotLink(tg, true))), w.db.nextSession, AccountFor(w.db, tg), tg,
                  now + 30 * 60 * SECOND)
  {
  }

  lemma QrStepKeepsReady(w: World, e: Event, sid: SessionId, uid: UserId, tg: TelegramId, deadline: Instant)
    requires Ready(w, sid, uid, tg, deadline) && e.at < deadline && LeavesReady(e.action, sid, uid)
    requires AboutQr(e.action)
    ensures Ready(Step(w, e), sid, uid, tg, deadline)
  {
  }

  lemma StepKeepsReady(w: World, e: Event, sid: SessionId, uid: UserId, tg: TelegramId, deadline: Instant)
    requires Ready(w, sid, uid, tg, deadline) && e.at < deadline && LeavesReady(e.action, sid, uid)
    ensures Ready(Step(w, e), sid, uid, tg, deadline)
  {
    if AboutQr(e.action) {
      QrStepKeepsReady(w, e, sid, uid, tg, deadline);
    }
  }

  lemma {:induction false} RunKeepsReady(w: World, events: seq<Event>, start: Instant, now: Instant, sid: SessionId,
                                         uid: UserId, tg: TelegramId, deadline: Instant)
    requires Ready(w, sid, uid, tg, deadline) && Chronological(events, start, now) && now < deadline
    requires forall i :: 0 <= i < |events| ==> LeavesReady(events[i].action, sid, uid)
    ensures Ready(Run(w, events), sid, uid, tg, deadline)
  {
    if |events| > 0 {
      var init, e := events[..|events| - 1], events[|events| - 1];
      RunKeepsReady(w, init, start, e.at, sid, uid, tg, deadline);
      StepKeepsReady(Run(w, init), e, sid, uid, tg, deadline);
    }
  }

  /** Polled in time, the session hands its tokens to the account and is spent. */
  ghost predicate HandsOver(w: World, sid: SessionId, uid: UserId, now: Instant) {
    var after := Step(w, Event(now, PollQr(sid)));
    && Redeems(w, sid, now) && sid in after.db.sessions && after.db.sessions[sid].status == Consumed
    && after.log.redemptions == w.log.redemptions + [Redemption(sid, uid, now)]
  }

  lemma ReadyHandsOver(w: World, sid: SessionId, uid: UserId, tg: TelegramId, deadline: Instant, now: Instant)
    requires Ready(w, sid, uid, tg, deadline) && now < deadline
    ensures HandsOver(w, sid, uid, now)
  {
  }

  // ---------- the whole login ----------

  lemma {:induction false} ClockGoesOn(events: seq<Event>, start: Instant, now: Instant)
    requires Chronological(events, start, now)
    ensures start <= now
  {
    if |events| > 0 {
      ClockGoesOn(events[..|events| - 1], start, events[|events| - 1].at);
    }
  }

  /**
   A session that the bot approves and the site polls within 120 seconds of its start hands its tokens to the
   account of the Telegram user: whatever requests come before the approval, unless they approve it for somebody
   else, and whatever requests come after, unless they poll it first or suspend the account.
   */
  lemma {:induction false} QrLoginCompletes(w: World, t0: Instant, before: seq<Event>, tg: TelegramId, t1: Instant,
                                            after: seq<Event>, t2: Instant)
    requires Chronological(before, t0, t1) && Chronological(after, t1, t2) && t2 < t0 + 120 * SECOND
    requires 1 <= tg <= 0x7FFF_FFFF_FFFF_FFFF
    requires forall i :: 0 <= i < |before| ==> !Approves(before[i].action, w.db.nextSession)
    requires var asked := Run(Step(w, Event(t0, StartQr)), before);
             && Welcome(asked.db, tg)
             && forall i :: 0 <= i < |after| ==>
                  LeavesReady(after[i].action, w.db.nextSession, AccountFor(asked.db, tg))
    ensures var sid, asked := w.db.nextSession, Run(Step(w, Event(t0, StartQr)), before);
            var final := Run(Step(asked, Event(t1, ApproveQr(sid, tg, true))), after);
            HandsOver(final, sid, AccountFor(asked.db, tg), t2)
  {
    var sid, deadline := w.db.nextSession, t0 + 120 * SECOND;
    var asked := Run(Step(w, Event(t0, StartQr)), before);
    var uid := AccountFor(asked.db, tg);
    ClockGoesOn(before, t0, t1);
    ClockGoesOn(after, t1, t2);
    StartWaits(w, t0);
    RunKeepsWaiting(Step(w, Event(t0, StartQr)), before, t0, t1, sid, deadline);
    ApprovalReadies(asked, sid, tg, t1, deadline);
    var approved := Step(asked, Event(t1, ApproveQr(sid, tg, true)));
    RunKeepsReady(approved, after, t1, t2, sid, uid, tg, deadline);
    ReadyHandsOver(Run(approved, after), sid, uid, tg, deadline, t2);
  }

  /** So does a link from the bot that is followed within thirty minutes. */
  lemma {:induction false} BotLinkCompletes(w: World, tg: TelegramId, t0: Instant, after: seq<Event>, t: Instant)
    requires Chronological(after, t0, t) && t < t0 + 30 * 60 * SECOND
    requires 1 <= tg <= 0x7FFF_FFFF_FFFF_FFFF && Welcome(w.db, tg)
    requires forall i :: 0 <= i < |after| ==> LeavesReady(after[i].action, w.db.nextSession, AccountFor(w.db, tg))
    ensures HandsOver(Run(Step(w, Event(t0, BotLink(tg, true))), after), w.db.nextSession, AccountFor(w.db, tg), t)
  {
    var sid, uid, deadline := w.db.nextSession, AccountFor(w.db, tg), t0 + 30 * 60 * SECOND;
    LinkReadies(w, tg, t0);
    RunKeepsReady(Step(w, Event(t0, BotLink(tg, true))), after, t0, t, sid, uid, tg, deadline);
    ReadyHandsOver(Run(Step(w, Event(t0, BotLink(tg, true))), after), sid, uid, tg, deadline, t);
  }
}
