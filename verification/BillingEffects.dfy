/** What each request does to the tables, said in the terms of the request and the rows alone. */
module BillingEffects {
  import opened Wrappers
  import opened Billing

  function Max(a: int, b: int): int {
    if a > b then a else b
  }

  /** The time left is added to, never lost: a period starts at the later of `until` and now. */
  function StackedOn(until: Option<Instant>, now: Instant): Instant {
    if until.Some? then Max(until.value, now) else now
  }

  /** A plan on sale, with a period. */
  predicate OnSale(plans: Plans, code: string) {
    code in plans && plans[code].isActive && plans[code].periodDays.Some? && plans[code].periodDays.value > 0
  }

  ghost predicate OthersKept(s: Store, s': Store, uid: UserId) {
    && s'.users.Keys == s.users.Keys + {uid}
    && forall other :: other in s.users && other != uid ==> s'.users[other] == s.users[other]
  }

  /** One more row, active from now until `until`, and the user PRO until then; nothing else changes. */
  ghost predicate Opens(s: Store, s': Store, uid: UserId, code: string, until: Instant, chargeId: string, amount: int,
                        now: Instant)
  {
    && OthersKept(s, s', uid)
    && s'.subs == s.subs + [Subscription(uid, code, Active, now, Some(until), chargeId, amount)]
    && uid in s'.users && s'.users[uid] == User(true, Some(until))
  }

  /** The payer's expiry as the table has it before the payment; somebody without an account has none. */
  function ExpiryOf(s: Store, uid: UserId): Option<Instant> {
    if uid in s.users then s.users[uid].premiumUntil else None
  }

  /** A payment for a plan on sale, under a new charge id, buys the plan's days; any other only opens the account. */
  ghost predicate PaidEffect(plans: Plans, s: Store, s': Store, uid: UserId, code: string, chargeId: string,
                             amount: int, now: Instant)
  {
    if OnSale(plans, code) && !ChargeUsed(s.subs, chargeId) then
      var until := StackedOn(ExpiryOf(s, uid), now) + plans[code].periodDays.value * DAY;
      Opens(s, s', uid, code, until, chargeId, amount, now)
    else
      && OthersKept(s, s', uid) && s'.subs == s.subs
      && uid in s'.users && s'.users[uid] == if uid in s.users then s.users[uid] else User(false, None)
  }

  /** The kinds and the periods that a manager may grant. */
  predicate Grantable(days: int, kind: string) {
    (kind == "gift" || kind == "trial" || kind == "manual") && 1 <= days <= 3650
  }

  /** A grant adds its days to the time left of a user who is flagged. */
  ghost predicate GrantedEffect(s: Store, s': Store, uid: UserId, days: int, kind: string, uuid: string, now: Instant)
    requires uid in s.users
  {
    if Grantable(days, kind) && !ChargeUsed(s.subs, kind + ":" + uuid) then
      var user := s.users[uid];
      var until := StackedOn(if user.isPro then user.premiumUntil else None, now) + days * DAY;
      Opens(s, s', uid, "pro_monthly", until, kind + ":" + uuid, 0, now)
    else s' == s
  }

  /** A row that keeps what it says about its owner, its plan, its beginning and its payment. */
  predicate SameRow(sub: Subscription, sub': Subscription) {
    && sub'.userId == sub.userId && sub'.planCode == sub.planCode && sub'.startedAt == sub.startedAt
    && sub'.chargeId == sub.chargeId && sub'.totalAmount == sub.totalAmount
  }

  /** All active rows of the user end now as revoked, and so does the user's PRO. */
  ghost predicate RevokedEffect(s: Store, s': Store, uid: UserId, now: Instant)
    requires uid in s.users
  {
    && OthersKept(s, s', uid) && s'.users[uid] == User(false, Some(now)) && |s'.subs| == |s.subs|
    && forall i :: 0 <= i < |s.subs| ==>
         if s.subs[i].userId == uid && s.subs[i].status == Active
         then SameRow(s.subs[i], s'.subs[i]) && s'.subs[i].status == Revoked && s'.subs[i].expiresAt == Some(now)
         else s'.subs[i] == s.subs[i]
  }

  /** The stored flag, and no more than that, comes to say what the expiry says; a lapsed user keeps no active row. */
  ghost predicate ReadEffect(s: Store, s': Store, uid: UserId, now: Instant)
    requires uid in s.users
  {
    var user := s.users[uid];
    var lapsed := user.isPro && user.premiumUntil.Some? && user.premiumUntil.value <= now;
    && OthersKept(s, s', uid) && |s'.subs| == |s.subs|
    && s'.users[uid] == User(user.isPro && !lapsed, user.premiumUntil)
    && forall i :: 0 <= i < |s.subs| ==>
         if lapsed && s.subs[i].userId == uid && s.subs[i].status == Active
         then SameRow(s.subs[i], s'.subs[i]) && s'.subs[i].status == Expired
           && s'.subs[i].expiresAt == s.subs[i].expiresAt
         else s'.subs[i] == s.subs[i]
  }

  /** An active row whose time was over before now. */
  predicate Overdue(sub: Subscription, now: Instant) {
    sub.status == Active && sub.expiresAt.Some? && sub.expiresAt.value < now
  }

  /** An active row that still grants time after now. */
  predicate HasTime(sub: Subscription, now: Instant) {
    sub.status == Active && (sub.expiresAt.Some? ==> sub.expiresAt.value > now)
  }

  /** The numbers of the rows whose status is another one. */
  ghost function Marked(subs: seq<Subscription>, subs': seq<Subscription>): set<nat>
    requires |subs| == |subs'|
  {
    set i: nat | i < |subs| && subs'[i].status != subs[i].status
  }

  /**
   Every overdue row is expired and no other row changes; the flag goes off for the owners of such rows who have
   no row with time left, and for nobody else.
   */
  ghost predicate SweptEffect(s: Store, s': Store, now: Instant) {
    && s'.users.Keys == s.users.Keys && |s'.subs| == |s.subs|
    && (forall i :: 0 <= i < |s.subs| ==>
          if Overdue(s.subs[i], now)
          then SameRow(s.subs[i], s'.subs[i]) && s'.subs[i].status == Expired
            && s'.subs[i].expiresAt == s.subs[i].expiresAt
          else s'.subs[i] == s.subs[i])
    && (forall uid :: uid in s.users ==>
          var owes := exists i :: 0 <= i < |s.subs| && s.subs[i].userId == uid && Overdue(s.subs[i], now);
          var has := exists i :: 0 <= i < |s.subs| && s.subs[i].userId == uid && HasTime(s.subs[i], now);
          s'.users[uid] == User(s.users[uid].isPro && (owes ==> has), s.users[uid].premiumUntil))
  }

  // ---------- the requests have these effects ----------

  lemma PaymentEffect(plans: Plans, s: Store, uid: UserId, code: string, chargeId: string, amount: int, now: Instant)
    ensures PaidEffect(plans, s, Step(plans, s, Pay(now, uid, code, chargeId, amount)), uid, code, chargeId, amount,
            now)
  {
  }

  lemma GrantEffect(s: Store, uid: UserId, days: int, kind: string, uuid: string, now: Instant)
    requires uid in s.users
    ensures GrantedEffect(s, Granted(s, uid, days, kind, uuid, now), uid, days, kind, uuid, now)
    ensures GrantAccepted(s, days, kind, uuid) <==> Grantable(days, kind) && !ChargeUsed(s.subs, kind + ":" + uuid)
  {
  }

  lemma RevokeEffect(s: Store, uid: UserId, now: Instant)
    requires uid in s.users
    ensures RevokedEffect(s, AccessRevoked(s, uid, now), uid, now)
  {
  }

  lemma ReconcileEffect(s: Store, uid: UserId, now: Instant)
    requires uid in s.users
    ensures ReadEffect(s, Reconciled(s, uid, now), uid, now)
  {
  }

  lemma SameWords(subs: seq<Subscription>, uid: UserId, now: Instant)
    ensures HasDue(subs, uid, now) <==>
            exists i :: 0 <= i < |subs| && subs[i].userId == uid && Overdue(subs[i], now)
    ensures HasLive(subs, uid, now) <==>
            exists i :: 0 <= i < |subs| && subs[i].userId == uid && HasTime(subs[i], now)
  {
    if HasDue(subs, uid, now) {
      var i :| 0 <= i < |subs| && subs[i].userId == uid && Due(subs[i], now);
      assert Overdue(subs[i], now);
    }
    if i :| 0 <= i < |subs| && subs[i].userId == uid && Overdue(subs[i], now) {
      assert Due(subs[i], now);
    }
    if HasLive(subs, uid, now) {
      var i :| 0 <= i < |subs| && LiveRowOf(subs[i], uid, now);
      assert HasTime(subs[i], now);
    }
    if i :| 0 <= i < |subs| && subs[i].userId == uid && HasTime(subs[i], now) {
      assert LiveRowOf(subs[i], uid, now);
    }
  }

  lemma SweepEffect(s: Store, now: Instant)
    ensures SweptEffect(s, Swept(s, now), now)
  {
    var s' := Swept(s, now);
    forall uid | uid in s.users
      ensures HasDue(s.subs, uid, now) <==>
              exists i :: 0 <= i < |s.subs| && s.subs[i].userId == uid && Overdue(s.subs[i], now)
      ensures HasLive(s.subs, uid, now) <==>
              exists i :: 0 <= i < |s.subs| && s.subs[i].userId == uid && HasTime(s.subs[i], now)
    {
      SameWords(s.subs, uid, now);
    }
  }
}
