/**
 Every run of payments, grants, revocations, reads and sweeps entitles each user to exactly the
 periods in the ledger.
 */
module Entitlement {
  import opened Wrappers
  import opened Billing
  import opened Ledger

  // ---------- the invariant of every reachable store ----------

  /** The rows of `uid` tell the same story as the user's expiry. */
  ghost predicate RowsAgree(user: User, subs: seq<Subscription>, uid: UserId) {
    && (forall i :: 0 <= i < |subs| && subs[i].userId == uid ==> subs[i].expiresAt.Some?)
    && (forall i :: 0 <= i < |subs| && ActiveRowOf(subs[i], uid) ==>
          user.premiumUntil.Some? && subs[i].expiresAt.value <= user.premiumUntil.value)
  }

  /** The newest active row of `uid`. */
  ghost predicate NewestActive(subs: seq<Subscription>, uid: UserId, i: int) {
    && 0 <= i < |subs| && ActiveRowOf(subs[i], uid)
    && forall j :: i < j < |subs| ==> !ActiveRowOf(subs[j], uid)
  }

  /** The newest active row of `uid` expires exactly at `until`. */
  ghost predicate BackedByRow(subs: seq<Subscription>, uid: UserId, until: Instant) {
    exists i :: NewestActive(subs, uid, i) && subs[i].expiresAt == Some(until)
  }

  /** The state of one user at clock `now`. */
  ghost predicate Coherent(user: User, subs: seq<Subscription>, uid: UserId, now: Instant) {
    && RowsAgree(user, subs, uid)
    && (user.isPro ==> user.premiumUntil.Some?)
    && (user.premiumUntil.Some? && user.premiumUntil.value > now ==>
          user.isPro && BackedByRow(subs, uid, user.premiumUntil.value))
  }

  ghost predicate CoherentStore(s: Store, now: Instant) {
    && (forall uid :: uid in s.users ==> Coherent(s.users[uid], s.subs, uid, now))
    && (forall i :: 0 <= i < |s.subs| ==> s.subs[i].userId in s.users)
  }

  /** The time left after `now`, seen from the user's expiry and from the user's account. */
  ghost predicate AccountAgrees(user: User, a: Account, now: Instant) {
    && StackingBase(a, now) == PaymentBase(user, now)
    && (forall t :: t >= now ==> (Covered(a, t) <==> user.premiumUntil.Some? && t < user.premiumUntil.value))
    && (forall i :: 0 <= i < |a| ==> a[i].End() <= PaymentBase(user, now))
    && (forall i :: 0 <= i < |a| && a[i].cut.Some? ==> a[i].cut.value <= now)
    && Disjoint(a)
  }

  ghost predicate BookAgrees(s: Store, b: Book, now: Instant) {
    && s.users.Keys == b.accounts.Keys
    && (forall c :: c in b.charges <==> ChargeUsed(s.subs, c))
    && (forall uid :: uid in s.users ==> AccountAgrees(s.users[uid], b.accounts[uid], now))
  }

  ghost predicate InSync(s: Store, b: Book, now: Instant) {
    CoherentStore(s, now) && BookAgrees(s, b, now)
  }

  // ---------- the invariant holds at first and survives every step ----------

  /** Nothing but the clock has changed. */
  lemma SyncedLater(s: Store, b: Book, now: Instant, later: Instant)
    requires InSync(s, b, now) && now <= later
    ensures InSync(s, b, later)
  {
  }

  lemma OpenKeepsCoherence(s: Store, uid: UserId, now: Instant)
    requires CoherentStore(s, now)
    ensures CoherentStore(WithUser(s, uid), now)
  {
    if uid !in s.users {
      assert Coherent(FREE_USER, s.subs, uid, now);
    }
  }

  lemma OpenKeepsBook(s: Store, b: Book, uid: UserId, now: Instant)
    requires BookAgrees(s, b, now)
    ensures BookAgrees(WithUser(s, uid), Open(b, uid), now)
  {
  }

  /** An account is opened at the user's first payment, with no time in it. */
  lemma OpenKeepsSync(s: Store, b: Book, uid: UserId, now: Instant)
    requires InSync(s, b, now)
    ensures InSync(WithUser(s, uid), Open(b, uid), now)
  {
    OpenKeepsCoherence(s, uid, now);
    OpenKeepsBook(s, b, uid, now);
  }

  lemma ExtendKeepsOthers(s: Store, uid: UserId, row: Subscription, other: UserId, now: Instant)
    requires uid in s.users && other in s.users && other != uid && row.userId == uid
    requires Coherent(s.users[other], s.subs, other, now)
    ensures Coherent(s.users[other], Extend(s, uid, row).subs, other, now)
  {
    var subs := Extend(s, uid, row).subs;
    assert forall i :: 0 <= i < |s.subs| ==> subs[i] == s.subs[i];
    if s.users[other].premiumUntil.Some? && s.users[other].premiumUntil.value > now {
      var i :| NewestActive(s.subs, other, i) && s.subs[i].expiresAt == s.users[other].premiumUntil;
      assert NewestActive(subs, other, i);
    }
  }

  lemma ExtendKeepsUser(s: Store, uid: UserId, row: Subscription, now: Instant)
    requires uid in s.users && Coherent(s.users[uid], s.subs, uid, now)
    requires ActiveRowOf(row, uid) && row.expiresAt.Some? && row.expiresAt.value > PaymentBase(s.users[uid], now)
    ensures Coherent(Extend(s, uid, row).users[uid], Extend(s, uid, row).subs, uid, now)
  {
    var subs := Extend(s, uid, row).subs;
    assert forall i :: 0 <= i < |s.subs| ==> subs[i] == s.subs[i];
    assert NewestActive(subs, uid, |s.subs|);
  }

  lemma BuyingKeepsAccount(user: User, a: Account, days: nat, now: Instant)
    requires AccountAgrees(user, a, now) && days > 0
    ensures AccountAgrees(User(true, Some(PaymentBase(user, now) + days * DAY)), Bought(a, days, now), now)
  {
    var a' := Bought(a, days, now);
    var p := a'[|a|];
    assert forall i :: 0 <= i < |a| ==> a'[i] == a[i];
    forall t | t >= now
      ensures Covered(a', t) <==> t < p.Until()
    {
      if t < p.from {
        assert Covered(a, t);
      } else if t < p.Until() {
        assert p.Covers(t);
      }
    }
  }

  lemma ExtendKeepsCoherence(s: Store, uid: UserId, row: Subscription, now: Instant)
    requires CoherentStore(s, now) && uid in s.users
    requires ActiveRowOf(row, uid) && row.expiresAt.Some? && row.expiresAt.value > PaymentBase(s.users[uid], now)
    ensures CoherentStore(Extend(s, uid, row), now)
  {
    var s' := Extend(s, uid, row);
    forall other | other in s'.users
      ensures Coherent(s'.users[other], s'.subs, other, now)
    {
      if other == uid {
        ExtendKeepsUser(s, uid, row, now);
      } else {
        ExtendKeepsOthers(s, uid, row, other, now);
      }
    }
  }

  lemma ExtendAddsCharge(subs: seq<Subscription>, row: Subscription, c: string)
    ensures ChargeUsed(subs + [row], c) <==> ChargeUsed(subs, c) || c == row.chargeId
  {
    assert (subs + [row])[|subs|] == row;
    if ChargeUsed(subs, c) {
      var i :| 0 <= i < |subs| && subs[i].chargeId == c;
      assert (subs + [row])[i].chargeId == c;
    }
  }

  lemma ExtendKeepsBook(s: Store, b: Book, uid: UserId, row: Subscription, days: nat, now: Instant)
    requires BookAgrees(s, b, now) && uid in s.users && days > 0
    requires row.expiresAt == Some(PaymentBase(s.users[uid], now) + days * DAY)
    ensures BookAgrees(Extend(s, uid, row), Entry(b, uid, days, row.chargeId, now), now)
  {
    BuyingKeepsAccount(s.users[uid], b.accounts[uid], days, now);
    forall c ensures c in b.charges + {row.chargeId} <==> ChargeUsed(s.subs + [row], c) {
      ExtendAddsCharge(s.subs, row, c);
    }
  }

  lemma PurchaseKeepsSync(s: Store, b: Book, uid: UserId, row: Subscription, days: nat, now: Instant)
    requires InSync(s, b, now) && uid in s.users && days > 0 && ActiveRowOf(row, uid)
    requires row.expiresAt == Some(PaymentBase(s.users[uid], now) + days * DAY)
    ensures InSync(Extend(s, uid, row), Entry(b, uid, days, row.chargeId, now), now)
  {
    ExtendKeepsCoherence(s, uid, row, now);
    ExtendKeepsBook(s, b, uid, row, days, now);
  }

  // ---------- revocation ----------

  /** A change to one user's rows is invisible to the others. */
  lemma OthersKeepRows(s: Store, s': Store, other: UserId, now: Instant)
    requires other in s.users && other in s'.users && s.users[other] == s'.users[other]
    requires Coherent(s.users[other], s.subs, other, now)
    requires |s.subs| == |s'.subs|
    requires forall i :: 0 <= i < |s.subs| && s.subs[i].userId == other ==> s'.subs[i] == s.subs[i]
    requires forall i :: 0 <= i < |s.subs| ==> s'.subs[i].userId == s.subs[i].userId
    ensures Coherent(s'.users[other], s'.subs, other, now)
  {
    if s.users[other].premiumUntil.Some? && s.users[other].premiumUntil.value > now {
      var i :| NewestActive(s.subs, other, i) && s.subs[i].expiresAt == s.users[other].premiumUntil;
      assert NewestActive(s'.subs, other, i);
    }
  }

  lemma RevokeKeepsCoherence(s: Store, uid: UserId, now: Instant)
    requires CoherentStore(s, now) && uid in s.users
    ensures CoherentStore(AccessRevoked(s, uid, now), now)
  {
    var s' := AccessRevoked(s, uid, now);
    forall other | other in s'.users
      ensures Coherent(s'.users[other], s'.subs, other, now)
    {
      if other != uid {
        OthersKeepRows(s, s', other, now);
      }
    }
  }

  /** Rewriting rows in place keeps the set of charge ids. */
  lemma SameCharges(subs: seq<Subscription>, subs': seq<Subscription>, c: string)
    requires |subs| == |subs'| && forall i :: 0 <= i < |subs| ==> subs'[i].chargeId == subs[i].chargeId
    ensures ChargeUsed(subs, c) <==> ChargeUsed(subs', c)
  {
    if ChargeUsed(subs, c) {
      var i :| 0 <= i < |subs| && subs[i].chargeId == c;
      assert subs'[i].chargeId == c;
    }
  }

  lemma CuttingKeepsAccount(user: User, a: Account, now: Instant)
    requires AccountAgrees(user, a, now)
    ensures AccountAgrees(User(false, Some(now)), CutAll(a, now), now)
  {
    var a' := CutAll(a, now);
    forall i | 0 <= i < |a'| ensures a'[i].End() <= now && a'[i].End() <= a[i].End() && a'[i].from == a[i].from {
    }
  }

  lemma RevokeKeepsSync(s: Store, b: Book, uid: UserId, now: Instant)
    requires InSync(s, b, now) && uid in s.users
    ensures InSync(AccessRevoked(s, uid, now), b.(accounts := b.accounts[uid := CutAll(b.accounts[uid], now)]), now)
  {
    RevokeKeepsCoherence(s, uid, now);
    CuttingKeepsAccount(s.users[uid], b.accounts[uid], now);
    forall c ensures c in b.charges <==> ChargeUsed(AccessRevoked(s, uid, now).subs, c) {
      SameCharges(s.subs, AccessRevoked(s, uid, now).subs, c);
    }
  }

  // ---------- lazy expiration ----------

  lemma ReadKeepsCoherence(s: Store, uid: UserId, now: Instant)
    requires CoherentStore(s, now) && uid in s.users
    ensures CoherentStore(Reconciled(s, uid, now), now)
  {
    var s' := Reconciled(s, uid, now);
    if s' != s {
      forall other | other in s'.users
        ensures Coherent(s'.users[other], s'.subs, other, now)
      {
        if other != uid {
          OthersKeepRows(s, s', other, now);
        }
      }
    }
  }

  /** The sweep leaves alone whoever still has time. */
  lemma SweepSparesLive(s: Store, uid: UserId, now: Instant)
    requires uid in s.users && Coherent(s.users[uid], s.subs, uid, now)
    requires s.users[uid].premiumUntil.Some? && s.users[uid].premiumUntil.value > now
    ensures !SweepClears(s.subs, uid, now)
    ensures BackedByRow(SweptSubs(s.subs, now), uid, s.users[uid].premiumUntil.value)
  {
    var i :| NewestActive(s.subs, uid, i) && s.subs[i].expiresAt == s.users[uid].premiumUntil;
    assert LiveRowOf(s.subs[i], uid, now);
    assert NewestActive(SweptSubs(s.subs, now), uid, i);
  }

  lemma SweepKeepsUser(s: Store, uid: UserId, now: Instant)
    requires uid in s.users && Coherent(s.users[uid], s.subs, uid, now)
    ensures Coherent(Swept(s, now).users[uid], SweptSubs(s.subs, now), uid, now)
  {
    var subs := SweptSubs(s.subs, now);
    assert forall i :: 0 <= i < |subs| && ActiveRowOf(subs[i], uid) ==>
      subs[i] == s.subs[i] && ActiveRowOf(s.subs[i], uid);
    if s.users[uid].premiumUntil.Some? && s.users[uid].premiumUntil.value > now {
      SweepSparesLive(s, uid, now);
    }
  }

  lemma SweepKeepsCoherence(s: Store, now: Instant)
    requires CoherentStore(s, now)
    ensures CoherentStore(Swept(s, now), now)
  {
    forall uid | uid in s.users
      ensures Coherent(Swept(s, now).users[uid], SweptSubs(s.subs, now), uid, now)
    {
      SweepKeepsUser(s, uid, now);
    }
  }

  lemma LazyKeepsBook(s: Store, s': Store, b: Book, now: Instant)
    requires BookAgrees(s, b, now)
    requires s'.users.Keys == s.users.Keys
    requires forall uid :: uid in s.users ==> s'.users[uid].premiumUntil == s.users[uid].premiumUntil
    requires |s.subs| == |s'.subs| && forall i :: 0 <= i < |s.subs| ==> s'.subs[i].chargeId == s.subs[i].chargeId
    ensures BookAgrees(s', b, now)
  {
    forall c ensures c in b.charges <==> ChargeUsed(s'.subs, c) {
      SameCharges(s.subs, s'.subs, c);
    }
  }

  // ---------- every run ----------

  /** The program sells what the price list offers. */
  lemma BuysListedDays(plans: Plans, code: string)
    ensures PurchasableDays(plans, code) == if ListedDays(plans, code) == 0 then None else Some(ListedDays(plans, code))
  {
  }

  lemma PaymentKeepsSync(plans: Plans, s: Store, b: Book, uid: UserId, plan: string, chargeId: string, amount: int,
                         now: Instant)
    requires InSync(s, b, now) && uid in s.users
    ensures InSync(Activated(s, plans, uid, plan, chargeId, amount, now), Paid(b, plans, uid, plan, chargeId, now), now)
  {
    var days := PurchasableDays(plans, plan);
    BuysListedDays(plans, plan);
    if !ChargeUsed(s.subs, chargeId) && days.Some? {
      var row := PaymentRow(s.users[uid], uid, plan, days.value, chargeId, amount, now);
      PurchaseKeepsSync(s, b, uid, row, days.value, now);
    }
  }

  /** The two stacking rules, written differently, start the next period at the same instant. */
  lemma BasesAgree(user: User, subs: seq<Subscription>, uid: UserId, now: Instant)
    requires Coherent(user, subs, uid, now)
    ensures GrantBase(user, now) == PaymentBase(user, now)
  {
  }

  lemma GrantKeepsSync(s: Store, b: Book, uid: UserId, days: int, kind: string, uuid: string, now: Instant)
    requires InSync(s, b, now) && uid in s.users
    ensures InSync(Granted(s, uid, days, kind, uuid, now), Given(b, uid, days, kind, uuid, now), now)
  {
    if GrantAccepted(s, days, kind, uuid) {
      BasesAgree(s.users[uid], s.subs, uid, now);
      PurchaseKeepsSync(s, b, uid, GrantRow(s.users[uid], uid, days, kind, uuid, now), days, now);
    }
  }

  lemma ReadKeepsBook(s: Store, b: Book, uid: UserId, now: Instant)
    requires BookAgrees(s, b, now) && uid in s.users
    ensures BookAgrees(Reconciled(s, uid, now), b, now)
  {
    LazyKeepsBook(s, Reconciled(s, uid, now), b, now);
  }

  lemma SweepKeepsBook(s: Store, b: Book, now: Instant)
    requires BookAgrees(s, b, now)
    ensures BookAgrees(Swept(s, now), b, now)
  {
    LazyKeepsBook(s, Swept(s, now), b, now);
  }

  lemma ReadKeepsSync(s: Store, b: Book, uid: UserId, now: Instant)
    requires InSync(s, b, now) && uid in s.users
    ensures InSync(Reconciled(s, uid, now), b, now)
  {
    ReadKeepsCoherence(s, uid, now);
    ReadKeepsBook(s, b, uid, now);
  }

  lemma SweepKeepsSync(s: Store, b: Book, now: Instant)
    requires InSync(s, b, now)
    ensures InSync(Swept(s, now), b, now)
  {
    SweepKeepsCoherence(s, now);
    SweepKeepsBook(s, b, now);
  }

  lemma StepKeepsSync(plans: Plans, s: Store, b: Book, e: Event, now: Instant)
    requires InSync(s, b, e.at) && e.at <= now
    ensures InSync(Step(plans, s, e), Post(plans, b, e), now)
  {
    match e {
      case Pay(at, uid, plan, chargeId, amount) =>
        OpenKeepsSync(s, b, uid, at);
        PaymentKeepsSync(plans, WithUser(s, uid), Open(b, uid), uid, plan, chargeId, amount, at);
      case Grant(at, uid, days, kind, uuid) =>
        if uid in s.users { GrantKeepsSync(s, b, uid, days, kind, uuid, at); }
      case Revoke(at, uid) =>
        if uid in s.users { RevokeKeepsSync(s, b, uid, at); }
      case Read(at, uid) =>
        if uid in s.users { ReadKeepsSync(s, b, uid, at); }
      case Sweep(at) =>
        SweepKeepsSync(s, b, at);
    }
    SyncedLater(Step(plans, s, e), Post(plans, b, e), e.at, now);
  }

  /** Any set of accounts, none of which has ever had PRO. */
  predicate Fresh(s: Store) {
    s.subs == [] && forall uid :: uid in s.users ==> s.users[uid] == FREE_USER
  }

  function BlankBook(s: Store): Book {
    Book(map uid | uid in s.users :: [], {})
  }

  lemma {:induction false} RunsStayInSync(plans: Plans, s: Store, events: seq<Event>, start: Instant, now: Instant)
    requires Fresh(s) && Chronological(events, start, now)
    ensures InSync(Run(plans, s, events), PostAll(plans, BlankBook(s), events), now)
  {
    if |events| == 0 {
    } else {
      var e := events[|events| - 1];
      var init := events[..|events| - 1];
      RunsStayInSync(plans, s, init, start, e.at);
      var s1, b1 := Run(plans, s, init), PostAll(plans, BlankBook(s), init);
      StepKeepsSync(plans, s1, b1, e, now);
    }
  }

  /**
   After any run, at the last step or at any later instant, a user is PRO exactly when the instant lies
   in a period the user was sold or given and that was not revoked.
   */
  lemma {:induction false} EntitledExactlyAsGranted(plans: Plans, s: Store, events: seq<Event>, start: Instant,
                                                    now: Instant, uid: UserId, t: Instant)
    requires Fresh(s) && Chronological(events, start, now) && now <= t
    requires uid in Run(plans, s, events).users
    ensures uid in PostAll(plans, BlankBook(s), events).accounts
    ensures IsPro(Run(plans, s, events).users[uid], t) <==>
            Covered(PostAll(plans, BlankBook(s), events).accounts[uid], t)
    ensures Disjoint(PostAll(plans, BlankBook(s), events).accounts[uid])
  {
    RunsStayInSync(plans, s, events, start, now);
    var final := Run(plans, s, events);
    assert Coherent(final.users[uid], final.subs, uid, now);
    assert AccountAgrees(final.users[uid], PostAll(plans, BlankBook(s), events).accounts[uid], now);
  }

  /** In every reachable store both purchase paths stack a new period alike. */
  lemma {:induction false} ReachableStackingAgrees(plans: Plans, s: Store, events: seq<Event>, start: Instant,
                                                   now: Instant, uid: UserId)
    requires Fresh(s) && Chronological(events, start, now)
    requires uid in Run(plans, s, events).users
    ensures GrantBase(Run(plans, s, events).users[uid], now) == PaymentBase(Run(plans, s, events).users[uid], now)
  {
    RunsStayInSync(plans, s, events, start, now);
    BasesAgree(Run(plans, s, events).users[uid], Run(plans, s, events).subs, uid, now);
  }
}
