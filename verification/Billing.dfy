/**
 The PRO entitlement tables and what each operation does to them.

 `Store` is the content of the `users` and `subscriptions` tables.  A subscription's primary key is
 its position in `subs`: ids grow by one and rows are never deleted.  Instants and durations are whole
 microseconds, the resolution of the timestamps the program stores.
 */
module Billing {
  import opened Wrappers

  type UserId = nat
  type Instant = int

  const SECOND: int := 1_000_000
  const DAY: int := 86_400_000_000

  datatype User = User(isPro: bool, premiumUntil: Option<Instant>)

  /** A row as the schema defaults create it: no entitlement. */
  const FREE_USER := User(false, None)

  datatype Status = Active | Expired | Revoked

  datatype Subscription = Subscription(
    userId: UserId,
    planCode: string,
    status: Status,
    startedAt: Instant,
    expiresAt: Option<Instant>,
    chargeId: string,
    totalAmount: int)

  datatype Plan = Plan(isActive: bool, periodDays: Option<nat>)

  type Plans = map<string, Plan>

  datatype Store = Store(users: map<UserId, User>, subs: seq<Subscription>)

  // ---------- reading ----------

  /** Whether the user holds PRO at `now`. */
  predicate IsPro(user: User, now: Instant) {
    user.isPro && (user.premiumUntil.None? || user.premiumUntil.value > now)
  }

  predicate ActiveRowOf(sub: Subscription, uid: UserId) {
    sub.userId == uid && sub.status.Active?
  }

  /** An active row of `uid` that has time left after `now`. */
  predicate LiveRowOf(sub: Subscription, uid: UserId, now: Instant) {
    ActiveRowOf(sub, uid) && (sub.expiresAt.None? || sub.expiresAt.value > now)
  }

  predicate HasLive(subs: seq<Subscription>, uid: UserId, now: Instant) {
    exists i :: 0 <= i < |subs| && LiveRowOf(subs[i], uid, now)
  }

  /** The rows the sweep selects: active and strictly past their expiry. */
  predicate Due(sub: Subscription, now: Instant) {
    sub.status.Active? && sub.expiresAt.Some? && sub.expiresAt.value < now
  }

  predicate HasDue(subs: seq<Subscription>, uid: UserId, now: Instant) {
    exists i :: 0 <= i < |subs| && subs[i].userId == uid && Due(subs[i], now)
  }

  predicate ChargeUsed(subs: seq<Subscription>, chargeId: string) {
    exists i :: 0 <= i < |subs| && subs[i].chargeId == chargeId
  }

  /** The position of the first row carrying `chargeId`. */
  function FindCharge(subs: seq<Subscription>, chargeId: string): (r: Option<nat>)
    ensures r.Some? ==> r.value < |subs| && subs[r.value].chargeId == chargeId
    ensures r.Some? <==> ChargeUsed(subs, chargeId)
  {
    if |subs| == 0 then None
    else if subs[0].chargeId == chargeId then Some(0)
    else
      match FindCharge(subs[1..], chargeId)
      case None =>
        assert forall i :: 1 <= i < |subs| ==> subs[i] == subs[1..][i - 1];
        None
      case Some(i) => Some(i + 1)
  }

  /** The length in days of a plan that can be bought; the FREE plan has no period. */
  function PurchasableDays(plans: Plans, code: string): (r: Option<nat>)
    ensures r.Some? ==> r.value > 0
  {
    if code !in plans || !plans[code].isActive then None
    else if plans[code].periodDays == Some(0) then None
    else plans[code].periodDays
  }

  // ---------- writing ----------

  /** Where a payment starts: at the end of the time left, else now. */
  function PaymentBase(user: User, now: Instant): Instant {
    if user.premiumUntil.Some? && user.premiumUntil.value > now then user.premiumUntil.value else now
  }

  /** Where a grant starts; unlike a payment it also asks for the flag. */
  function GrantBase(user: User, now: Instant): Instant {
    if user.isPro && user.premiumUntil.Some? && user.premiumUntil.value > now
    then user.premiumUntil.value
    else now
  }

  /** Adds an active row and moves the user's expiry to it. */
  function Extend(s: Store, uid: UserId, row: Subscription): Store {
    Store(s.users[uid := User(true, row.expiresAt)], s.subs + [row])
  }

  function PaymentRow(user: User, uid: UserId, code: string, days: nat, chargeId: string, amount: int,
                      now: Instant): Subscription
  {
    Subscription(uid, code, Active, now, Some(PaymentBase(user, now) + days * DAY), chargeId, amount)
  }

  /** The whole effect of a payment on the tables: none at all when it is a repeat or not purchasable. */
  function Activated(s: Store, plans: Plans, uid: UserId, code: string, chargeId: string, amount: int,
                     now: Instant): Store
    requires uid in s.users
  {
    if ChargeUsed(s.subs, chargeId) then s
    else
      match PurchasableDays(plans, code)
      case None => s
      case Some(days) => Extend(s, uid, PaymentRow(s.users[uid], uid, code, days, chargeId, amount, now))
  }

  /** A payment relayed by the bot first makes sure that the payer has an account. */
  function WithUser(s: Store, uid: UserId): (r: Store)
    ensures uid in r.users
  {
    if uid in s.users then s else s.(users := s.users[uid := FREE_USER])
  }

  const KINDS: set<string> := {"gift", "trial", "manual"}

  predicate GrantAccepted(s: Store, days: int, kind: string, uuid: string) {
    kind in KINDS && 1 <= days <= 3650 && !ChargeUsed(s.subs, kind + ":" + uuid)
  }

  function GrantRow(user: User, uid: UserId, days: int, kind: string, uuid: string, now: Instant): Subscription {
    Subscription(uid, "pro_monthly", Active, now, Some(GrantBase(user, now) + days * DAY), kind + ":" + uuid, 0)
  }

  function Granted(s: Store, uid: UserId, days: int, kind: string, uuid: string, now: Instant): Store
    requires uid in s.users
  {
    if GrantAccepted(s, days, kind, uuid)
    then Extend(s, uid, GrantRow(s.users[uid], uid, days, kind, uuid, now))
    else s
  }

  function RevokeRow(sub: Subscription, uid: UserId, now: Instant): Subscription {
    if ActiveRowOf(sub, uid) then sub.(status := Revoked, expiresAt := Some(now)) else sub
  }

  function RevokedSubs(subs: seq<Subscription>, uid: UserId, now: Instant): seq<Subscription> {
    seq(|subs|, i requires 0 <= i < |subs| => RevokeRow(subs[i], uid, now))
  }

  function AccessRevoked(s: Store, uid: UserId, now: Instant): Store {
    Store(s.users[uid := User(false, Some(now))], RevokedSubs(s.subs, uid, now))
  }

  function LapseRow(sub: Subscription, uid: UserId): Subscription {
    if ActiveRowOf(sub, uid) then sub.(status := Expired) else sub
  }

  function LapsedSubs(subs: seq<Subscription>, uid: UserId): seq<Subscription> {
    seq(|subs|, i requires 0 <= i < |subs| => LapseRow(subs[i], uid))
  }

  function Reconciled(s: Store, uid: UserId, now: Instant): Store
    requires uid in s.users
  {
    var user := s.users[uid];
    if user.isPro && !IsPro(user, now)
    then Store(s.users[uid := user.(isPro := false)], LapsedSubs(s.subs, uid))
    else s
  }

  function SweepRow(sub: Subscription, now: Instant): Subscription {
    if Due(sub, now) then sub.(status := Expired) else sub
  }

  function SweptSubs(subs: seq<Subscription>, now: Instant): seq<Subscription> {
    seq(|subs|, i requires 0 <= i < |subs| => SweepRow(subs[i], now))
  }

  /** The flag is cleared for the owner of a swept row who has nothing live left. */
  predicate SweepClears(subs: seq<Subscription>, uid: UserId, now: Instant) {
    HasDue(subs, uid, now) && !HasLive(subs, uid, now)
  }

  function Swept(s: Store, now: Instant): Store {
    Store(
      map uid | uid in s.users ::
        if SweepClears(s.subs, uid, now) then s.users[uid].(isPro := false) else s.users[uid],
      SweptSubs(s.subs, now))
  }

  // ---------- runs ----------

  datatype Event =
    | Pay(at: Instant, uid: UserId, plan: string, chargeId: string, amount: int)
    | Grant(at: Instant, uid: UserId, days: int, kind: string, uuid: string)
    | Revoke(at: Instant, uid: UserId)
    | Read(at: Instant, uid: UserId)
    | Sweep(at: Instant)

  /** One request.  A grant, a revocation or a read for an unknown account is refused and changes nothing. */
  function Step(plans: Plans, s: Store, e: Event): Store {
    match e
    case Pay(at, uid, plan, chargeId, amount) =>
      Activated(WithUser(s, uid), plans, uid, plan, chargeId, amount, at)
    case Grant(at, uid, days, kind, uuid) =>
      if uid in s.users then Granted(s, uid, days, kind, uuid, at) else s
    case Revoke(at, uid) =>
      if uid in s.users then AccessRevoked(s, uid, at) else s
    case Read(at, uid) =>
      if uid in s.users then Reconciled(s, uid, at) else s
    case Sweep(at) => Swept(s, at)
  }

  function Run(plans: Plans, s: Store, events: seq<Event>): Store {
    if |events| == 0 then s
    else Step(plans, Run(plans, s, events[..|events| - 1]), events[|events| - 1])
  }

  /** The clock of the run never goes back, from `start` to `now`. */
  predicate Chronological(events: seq<Event>, start: Instant, now: Instant) {
    if |events| == 0 then start <= now
    else events[|events| - 1].at <= now && Chronological(events[..|events| - 1], start, events[|events| - 1].at)
  }
}
