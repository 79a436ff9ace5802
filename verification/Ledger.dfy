/**
 What a run of purchases and revocations entitles each user to, said without flags, expiry columns or
 subscription rows: an account is the list of periods bought so far.
 */
module Ledger {
  import opened Wrappers
  import opened Billing

  /** `days` days of PRO from `from`, ended early at `cut` when access was revoked. */
  datatype Period = Period(from: Instant, days: nat, cut: Option<Instant>) {
    function Until(): Instant {
      from + days * DAY
    }

    /** The first instant at or after which the period grants nothing. */
    function End(): Instant {
      if cut.Some? && cut.value < Until() then cut.value else Until()
    }

    function Length(): nat {
      if from < End() then End() - from else 0
    }

    predicate Covers(t: Instant) {
      from <= t < End()
    }
  }

  type Account = seq<Period>

  datatype Book = Book(accounts: map<UserId, Account>, charges: set<string>)

  predicate Covered(a: Account, t: Instant) {
    exists i :: 0 <= i < |a| && a[i].Covers(t)
  }

  /** Time still ahead at `now` that nobody revoked: where the next period has to start. */
  function StackingBase(a: Account, now: Instant): Instant {
    if |a| > 0 && a[|a| - 1].cut.None? && a[|a| - 1].Until() > now then a[|a| - 1].Until() else now
  }

  function Bought(a: Account, days: nat, now: Instant): Account {
    a + [Period(StackingBase(a, now), days, None)]
  }

  function CutPeriod(p: Period, now: Instant): Period {
    if p.cut.None? then p.(cut := Some(now)) else p
  }

  function CutAll(a: Account, now: Instant): Account {
    seq(|a|, i requires 0 <= i < |a| => CutPeriod(a[i], now))
  }

  function Open(b: Book, uid: UserId): (r: Book)
    ensures uid in r.accounts
  {
    if uid in b.accounts then b else b.(accounts := b.accounts[uid := []])
  }

  function Entry(b: Book, uid: UserId, days: nat, chargeId: string, now: Instant): Book
    requires uid in b.accounts
  {
    Book(b.accounts[uid := Bought(b.accounts[uid], days, now)], b.charges + {chargeId})
  }

  /** The days that the price list gives for `code`; nought when it offers none. */
  function ListedDays(plans: Plans, code: string): nat {
    if code in plans && plans[code].isActive && plans[code].periodDays.Some? then plans[code].periodDays.value else 0
  }

  /** A payment enters the book once, and only for a plan that the price list offers. */
  function Paid(b: Book, plans: Plans, uid: UserId, plan: string, chargeId: string, now: Instant): Book
    requires uid in b.accounts
  {
    var days := ListedDays(plans, plan);
    if chargeId in b.charges || days == 0 then b else Entry(b, uid, days, chargeId, now)
  }

  function Given(b: Book, uid: UserId, days: int, kind: string, uuid: string, now: Instant): Book
    requires uid in b.accounts
  {
    if kind in KINDS && 1 <= days <= 3650 && kind + ":" + uuid !in b.charges
    then Entry(b, uid, days, kind + ":" + uuid, now)
    else b
  }

  /** Reads and sweeps leave no trace in the book. */
  function Post(plans: Plans, b: Book, e: Event): Book {
    match e
    case Pay(at, uid, plan, chargeId, amount) => Paid(Open(b, uid), plans, uid, plan, chargeId, at)
    case Grant(at, uid, days, kind, uuid) =>
      if uid in b.accounts then Given(b, uid, days, kind, uuid, at) else b
    case Revoke(at, uid) =>
      if uid in b.accounts then b.(accounts := b.accounts[uid := CutAll(b.accounts[uid], at)]) else b
    case Read(_, _) => b
    case Sweep(_) => b
  }

  function PostAll(plans: Plans, b: Book, events: seq<Event>): Book {
    if |events| == 0 then b
    else Post(plans, PostAll(plans, b, events[..|events| - 1]), events[|events| - 1])
  }

  /** No instant is granted twice: every period starts no earlier than the previous ones end. */
  predicate Disjoint(a: Account) {
    forall i, j :: 0 <= i < j < |a| ==> a[i].End() <= a[j].from
  }

  function TotalLength(a: Account): nat {
    if |a| == 0 then 0 else TotalLength(a[..|a| - 1]) + a[|a| - 1].Length()
  }
}
