/** Sweeping works: in every run the stored flag of a user whose time is over does not outlive a sweep. */
module SweepLaws {
  import opened Wrappers
  import opened Billing
  import opened BillingEffects
  import opened Ledger
  import opened Entitlement

  /** A user who is flagged has an active row, and the newest of them ends when the user's time does. */
  ghost predicate FlagBacked(user: User, subs: seq<Subscription>, uid: UserId) {
    user.isPro ==> user.premiumUntil.Some? && BackedByRow(subs, uid, user.premiumUntil.value)
  }

  ghost predicate FlagsBacked(s: Store) {
    forall uid :: uid in s.users ==> FlagBacked(s.users[uid], s.subs, uid)
  }

  lemma NewRowBacks(s: Store, uid: UserId, row: Subscription)
    requires FlagsBacked(s) && row.userId == uid && row.status.Active? && row.expiresAt.Some?
    ensures FlagsBacked(Extend(s, uid, row))
  {
    var s' := Extend(s, uid, row);
    assert NewestActive(s'.subs, uid, |s.subs|);
    forall other | other in s'.users && other != uid ensures FlagBacked(s'.users[other], s'.subs, other) {
      if s.users[other].isPro {
        var i :| NewestActive(s.subs, other, i) && s.subs[i].expiresAt == s.users[other].premiumUntil;
        assert NewestActive(s'.subs, other, i);
      }
    }
  }

  lemma SameRowsBack(subs: seq<Subscription>, subs': seq<Subscription>, uid: UserId, until: Instant)
    requires |subs| == |subs'| && forall i :: 0 <= i < |subs| && subs[i].userId == uid ==> subs'[i] == subs[i]
    requires forall i :: 0 <= i < |subs| ==> subs'[i].userId == subs[i].userId
    requires BackedByRow(subs, uid, until)
    ensures BackedByRow(subs', uid, until)
  {
    var i :| NewestActive(subs, uid, i) && subs[i].expiresAt == Some(until);
    assert NewestActive(subs', uid, i);
  }

  lemma RevokeKeepsBacked(s: Store, uid: UserId, now: Instant)
    requires FlagsBacked(s) && uid in s.users
    ensures FlagsBacked(AccessRevoked(s, uid, now))
  {
    var s' := AccessRevoked(s, uid, now);
    forall other | other in s'.users && other != uid ensures FlagBacked(s'.users[other], s'.subs, other) {
      if s.users[other].isPro {
        SameRowsBack(s.subs, s'.subs, other, s.users[other].premiumUntil.value);
      }
    }
  }

  lemma ReadKeepsBacked(s: Store, uid: UserId, now: Instant)
    requires FlagsBacked(s) && uid in s.users
    ensures FlagsBacked(Reconciled(s, uid, now))
  {
    var s' := Reconciled(s, uid, now);
    if s' != s {
      forall other | other in s'.users && other != uid ensures FlagBacked(s'.users[other], s'.subs, other) {
        if s.users[other].isPro {
          SameRowsBack(s.subs, s'.subs, other, s.users[other].premiumUntil.value);
        }
      }
    }
  }

  /** No time is left to a user whose expiry has passed. */
  lemma NoneLiveAfterExpiry(user: User, subs: seq<Subscription>, uid: UserId, now: Instant)
    requires RowsAgree(user, subs, uid) && user.premiumUntil.Some? && user.premiumUntil.value <= now
    ensures !HasLive(subs, uid, now)
  {
  }

  /** The sweep clears the flag of whoever's expiry has passed. */
  lemma SweepClearsOne(s: Store, uid: UserId, now: Instant)
    requires uid in s.users && RowsAgree(s.users[uid], s.subs, uid) && FlagBacked(s.users[uid], s.subs, uid)
    requires s.users[uid].isPro && s.users[uid].premiumUntil.value < now
    ensures SweepClears(s.subs, uid, now)
  {
    NoneLiveAfterExpiry(s.users[uid], s.subs, uid, now);
    var i :| NewestActive(s.subs, uid, i) && s.subs[i].expiresAt == s.users[uid].premiumUntil;
    assert s.subs[i].userId == uid && Due(s.subs[i], now);
  }

  lemma SweepKeepsBacked(s: Store, now: Instant)
    requires CoherentStore(s, now) && FlagsBacked(s)
    ensures FlagsBacked(Swept(s, now))
  {
    var s' := Swept(s, now);
    forall uid | uid in s'.users ensures FlagBacked(s'.users[uid], s'.subs, uid) {
      if s'.users[uid].isPro {
        var i :| NewestActive(s.subs, uid, i) && s.subs[i].expiresAt == s.users[uid].premiumUntil;
        assert Coherent(s.users[uid], s.subs, uid, now);
        if s.users[uid].premiumUntil.value < now {
          SweepClearsOne(s, uid, now);
        }
        assert NewestActive(s'.subs, uid, i);
      }
    }
  }

  lemma StepKeepsBacked(plans: Plans, s: Store, e: Event)
    requires CoherentStore(s, e.at) && FlagsBacked(s)
    ensures FlagsBacked(Step(plans, s, e))
  {
    match e
    case Pay(at, uid, plan, chargeId, amount) =>
      var s1 := WithUser(s, uid);
      assert FlagsBacked(s1);
      if !ChargeUsed(s1.subs, chargeId) && PurchasableDays(plans, plan).Some? {
        NewRowBacks(s1, uid,
          PaymentRow(s1.users[uid], uid, plan, PurchasableDays(plans, plan).value, chargeId, amount, at));
      }
    case Grant(at, uid, days, kind, uuid) =>
      if uid in s.users && GrantAccepted(s, days, kind, uuid) {
        NewRowBacks(s, uid, GrantRow(s.users[uid], uid, days, kind, uuid, at));
      }
    case Revoke(at, uid) =>
      if uid in s.users {
        RevokeKeepsBacked(s, uid, at);
      }
    case Read(at, uid) =>
      if uid in s.users {
        ReadKeepsBacked(s, uid, at);
      }
    case Sweep(at) => SweepKeepsBacked(s, at);
  }

  /** In every run whoever is flagged has an active row that ends when the user's time does. */
  lemma {:induction false} RunKeepsBacked(plans: Plans, s: Store, events: seq<Event>, start: Instant, now: Instant)
    requires Fresh(s) && Chronological(events, start, now)
    ensures FlagsBacked(Run(plans, s, events))
  {
    if |events| > 0 {
      var init, e := events[..|events| - 1], events[|events| - 1];
      RunKeepsBacked(plans, s, init, start, e.at);
      RunsStayInSync(plans, s, init, start, e.at);
      StepKeepsBacked(plans, Run(plans, s, init), e);
    }
  }

  /** Only a user whose time was not over before `now` is flagged, and only such rows are active. */
  ghost predicate Settled(before: Store, after: Store, uid: UserId, now: Instant)
    requires uid in before.users && uid in after.users
  {
    var user := before.users[uid];
    && (IsPro(user, now) ==> after.users[uid].isPro)
    && (after.users[uid].isPro ==> user.isPro && user.premiumUntil.Some? && user.premiumUntil.value >= now)
    && (forall i :: 0 <= i < |after.subs| && after.subs[i].status == Active ==>
          after.subs[i].expiresAt.Some? && after.subs[i].expiresAt.value >= now)
  }

  lemma SweptFlag(s: Store, uid: UserId, now: Instant)
    requires uid in s.users && Coherent(s.users[uid], s.subs, uid, now) && FlagBacked(s.users[uid], s.subs, uid)
    ensures var user, after := s.users[uid], Swept(s, now).users[uid];
            && (IsPro(user, now) ==> after.isPro)
            && (after.isPro ==> user.isPro && user.premiumUntil.Some? && user.premiumUntil.value >= now)
  {
    if IsPro(s.users[uid], now) {
      SweepSparesLive(s, uid, now);
    }
    if s.users[uid].isPro && s.users[uid].premiumUntil.value < now {
      SweepClearsOne(s, uid, now);
    }
  }

  lemma AllRowsEnd(s: Store, now: Instant)
    requires CoherentStore(s, now)
    ensures forall i :: 0 <= i < |s.subs| ==> s.subs[i].expiresAt.Some?
  {
    forall i | 0 <= i < |s.subs| ensures s.subs[i].expiresAt.Some? {
      var uid := s.subs[i].userId;
      assert Coherent(s.users[uid], s.subs, uid, now);
    }
  }

  lemma SweepSettles(s: Store, uid: UserId, now: Instant)
    requires uid in s.users && CoherentStore(s, now) && FlagsBacked(s)
    ensures Settled(s, Swept(s, now), uid, now)
  {
    SweptFlag(s, uid, now);
    SweepEffect(s, now);
    AllRowsEnd(s, now);
  }

  lemma SweepStepSettles(plans: Plans, s: Store, uid: UserId, now: Instant)
    requires uid in s.users && CoherentStore(s, now) && FlagsBacked(s)
    ensures uid in Step(plans, s, Sweep(now)).users && Settled(s, Step(plans, s, Sweep(now)), uid, now)
  {
    SweepSettles(s, uid, now);
  }

  lemma {:induction false} ReachableStore(plans: Plans, s: Store, events: seq<Event>, start: Instant, now: Instant)
    requires Fresh(s) && Chronological(events, start, now)
    ensures CoherentStore(Run(plans, s, events), now) && FlagsBacked(Run(plans, s, events))
  {
    RunsStayInSync(plans, s, events, start, now);
    RunKeepsBacked(plans, s, events, start, now);
  }

  /**
   After any run a sweep leaves the flag to everybody with time left and to nobody whose time was over before,
   and leaves no active row that was over before.
   */
  lemma {:induction false} SweepClearsLapsed(plans: Plans, s: Store, events: seq<Event>, start: Instant, now: Instant,
                                             uid: UserId)
    requires Fresh(s) && Chronological(events, start, now) && uid in Run(plans, s, events).users
    ensures Settled(Run(plans, s, events), Step(plans, Run(plans, s, events), Sweep(now)), uid, now)
  {
    ReachableStore(plans, s, events, start, now);
    SweepStepSettles(plans, Run(plans, s, events), uid, now);
  }

  /** After any run a read leaves the flag exactly to whoever is PRO, and no active row to whoever has just lapsed. */
  lemma {:induction false} ReadSettles(plans: Plans, s: Store, events: seq<Event>, now: Instant, uid: UserId)
    requires uid in Run(plans, s, events).users
    ensures var before := Run(plans, s, events);
            var after := Step(plans, before, Read(now, uid));
            && uid in after.users
            && (after.users[uid].isPro <==> IsPro(before.users[uid], now))
            && (before.users[uid].isPro && !after.users[uid].isPro ==>
                  forall i :: 0 <= i < |after.subs| && after.subs[i].userId == uid ==> after.subs[i].status != Active)
  {
    ReconcileEffect(Run(plans, s, events), uid, now);
  }
}
