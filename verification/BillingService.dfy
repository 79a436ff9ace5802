/** The operations on the entitlement tables, as the program carries them out. */
module BillingService {
  import opened Wrappers
  import opened Billing
  import opened BillingEffects

  datatype BillingError = UnknownOrInactivePlan | NotPurchasable

  datatype GrantError = BadKind | BadDays | ChargeTaken

  /** The answer to a relayed payment. */
  datatype Activation = Activation(isPro: bool, row: nat, premiumUntil: Option<Instant>, alreadyApplied: bool)

  /** The positions of the rows the sweep selects, in table order. */
  function DueRows(subs: seq<Subscription>, now: Instant): (r: seq<nat>)
    ensures forall k :: 0 <= k < |r| ==> r[k] < |subs| && Due(subs[r[k]], now)
    ensures forall i :: 0 <= i < |subs| && Due(subs[i], now) ==> i in r
    ensures forall k, m :: 0 <= k < m < |r| ==> r[k] < r[m]
  {
    if |subs| == 0 then []
    else
      var last := |subs| - 1;
      var r := DueRows(subs[..last], now);
      if Due(subs[last], now) then r + [last] else r
  }

  predicate HasOtherActive(subs: seq<Subscription>, uid: UserId, exclude: nat, now: Instant) {
    exists i :: 0 <= i < |subs| && i != exclude && LiveRowOf(subs[i], uid, now)
  }

  /** What the sweep does at one of its rows. */
  function SweepOne(s: Store, row: nat, now: Instant): (r: Store)
    requires row < |s.subs|
    ensures |r.subs| == |s.subs|
  {
    var subs := s.subs[row := s.subs[row].(status := Expired)];
    var uid := subs[row].userId;
    if uid in s.users && !HasOtherActive(subs, uid, row, now)
    then Store(s.users[uid := s.users[uid].(isPro := false)], subs)
    else Store(s.users, subs)
  }

  function SweepRows(s: Store, rows: seq<nat>, now: Instant): (r: Store)
    requires forall k :: 0 <= k < |rows| ==> rows[k] < |s.subs|
    ensures |r.subs| == |s.subs|
  {
    if |rows| == 0 then s else SweepOne(SweepRows(s, rows[..|rows| - 1], now), rows[|rows| - 1], now)
  }

  lemma {:induction false} SweepRowsStep(s: Store, rows: seq<nat>, n: nat, now: Instant)
    requires n < |rows| && forall k :: 0 <= k < |rows| ==> rows[k] < |s.subs|
    ensures SweepRows(s, rows[..n + 1], now) == SweepOne(SweepRows(s, rows[..n], now), rows[n], now)
  {
    assert rows[..n + 1][..n] == rows[..n];
  }

  ghost predicate OwnsOneOf(subs: seq<Subscription>, rows: seq<nat>, uid: UserId) {
    exists i :: i in rows && i < |subs| && subs[i].userId == uid
  }

  /** `s'` is `s` after sweeping some rows: those rows are marked, and their owners cleared unless still live. */
  ghost predicate SweptOver(s: Store, s': Store, rows: seq<nat>, now: Instant) {
    && |s'.subs| == |s.subs|
    && (forall i :: 0 <= i < |s.subs| ==> s'.subs[i] == if i in rows then s.subs[i].(status := Expired) else s.subs[i])
    && s'.users.Keys == s.users.Keys
    && (forall uid :: uid in s.users ==>
          s'.users[uid] == if OwnsOneOf(s.subs, rows, uid) && !HasLive(s.subs, uid, now)
                           then s.users[uid].(isPro := false) else s.users[uid])
  }

  /** Rows already swept in this pass were past their expiry, so they never counted as another live row. */
  lemma OtherActiveIsLive(s: Store, s': Store, rows: seq<nat>, uid: UserId, row: nat, now: Instant)
    requires SweptOver(s, s', rows, now) && row < |s.subs| && Due(s.subs[row], now)
    requires forall i :: i in rows ==> i < |s.subs| && Due(s.subs[i], now)
    ensures HasOtherActive(s'.subs[row := s'.subs[row].(status := Expired)], uid, row, now) <==>
            HasLive(s.subs, uid, now)
  {
    var subs := s'.subs[row := s'.subs[row].(status := Expired)];
    if HasLive(s.subs, uid, now) {
      var i :| 0 <= i < |s.subs| && LiveRowOf(s.subs[i], uid, now);
      assert i != row && LiveRowOf(subs[i], uid, now);
    }
  }

  lemma OwnsOneMore(subs: seq<Subscription>, rows: seq<nat>, row: nat, uid: UserId)
    requires row < |subs|
    ensures OwnsOneOf(subs, rows + [row], uid) <==> OwnsOneOf(subs, rows, uid) || subs[row].userId == uid
  {
    if subs[row].userId == uid {
      assert row in rows + [row];
    }
  }

  lemma SweepOneMore(s: Store, s': Store, rows: seq<nat>, row: nat, now: Instant)
    requires SweptOver(s, s', rows, now) && row < |s.subs| && Due(s.subs[row], now)
    requires forall i :: i in rows ==> i < |s.subs| && Due(s.subs[i], now)
    ensures SweptOver(s, SweepOne(s', row, now), rows + [row], now)
  {
    OtherActiveIsLive(s, s', rows, s.subs[row].userId, row, now);
    forall uid | uid in s.users
      ensures OwnsOneOf(s.subs, rows + [row], uid) <==> OwnsOneOf(s.subs, rows, uid) || s.subs[row].userId == uid
    {
      OwnsOneMore(s.subs, rows, row, uid);
    }
  }

  lemma {:induction false} SweepRowsSweepsOver(s: Store, rows: seq<nat>, now: Instant)
    requires forall k :: 0 <= k < |rows| ==> rows[k] < |s.subs| && Due(s.subs[rows[k]], now)
    ensures SweptOver(s, SweepRows(s, rows, now), rows, now)
  {
    if |rows| == 0 {
    } else {
      var init := rows[..|rows| - 1];
      SweepRowsSweepsOver(s, init, now);
      assert rows == init + [rows[|rows| - 1]];
      SweepOneMore(s, SweepRows(s, init, now), init, rows[|rows| - 1], now);
    }
  }

  lemma {:induction false} DueOwners(subs: seq<Subscription>, uid: UserId, now: Instant)
    ensures OwnsOneOf(subs, DueRows(subs, now), uid) <==> HasDue(subs, uid, now)
  {
    if HasDue(subs, uid, now) {
      var i :| 0 <= i < |subs| && subs[i].userId == uid && Due(subs[i], now);
      assert i in DueRows(subs, now);
    }
  }

  lemma {:induction false} SweptOverDueUser(s: Store, s': Store, rows: seq<nat>, uid: UserId, now: Instant)
    requires SweptOver(s, s', rows, now) && rows == DueRows(s.subs, now) && uid in s.users
    ensures uid in s'.users && s'.users[uid] == Swept(s, now).users[uid]
  {
    DueOwners(s.subs, uid, now);
    assert OwnsOneOf(s.subs, rows, uid) <==> HasDue(s.subs, uid, now);
  }

  lemma {:induction false} SweptOverDueUsers(s: Store, s': Store, rows: seq<nat>, now: Instant)
    requires SweptOver(s, s', rows, now) && rows == DueRows(s.subs, now)
    ensures s'.users == Swept(s, now).users
  {
    var users := Swept(s, now).users;
    assert s'.users.Keys == s.users.Keys == users.Keys;
    forall uid | uid in s.users ensures s'.users[uid] == users[uid] {
      SweptOverDueUser(s, s', rows, uid, now);
    }
  }

  /** Row by row, the pass does what the sweep is specified to do all at once. */
  lemma {:induction false} SweepIsComplete(s: Store, now: Instant)
    ensures SweepRows(s, DueRows(s.subs, now), now) == Swept(s, now)
  {
    var rows := DueRows(s.subs, now);
    var s' := SweepRows(s, rows, now);
    SweepRowsSweepsOver(s, rows, now);
    SweptOverDueUsers(s, s', rows, now);
    assert s'.subs == SweptSubs(s.subs, now);
  }

  /** Different numbers, as many as there are places in the list. */
  lemma {:induction false} AscendingCount(rows: seq<nat>, ids: set<nat>)
    requires forall k, m :: 0 <= k < m < |rows| ==> rows[k] < rows[m]
    requires forall i :: i in ids <==> i in rows
    ensures |ids| == |rows|
  {
    if |rows| == 0 {
      assert forall i :: i !in ids;
    } else {
      var init, last := rows[..|rows| - 1], rows[|rows| - 1];
      assert rows == init + [last];
      AscendingCount(init, ids - {last});
    }
  }

  /** The sweep changes the status of the rows it selects, and of as many. */
  lemma {:induction false} DueAreMarked(subs: seq<Subscription>, now: Instant)
    ensures |DueRows(subs, now)| == |Marked(subs, SweptSubs(subs, now))|
  {
    var rows, marked := DueRows(subs, now), Marked(subs, SweptSubs(subs, now));
    forall i: nat ensures i in marked <==> i in rows {
      if i in rows {
        assert i < |subs| && Due(subs[i], now);
      }
    }
    AscendingCount(rows, marked);
  }

  lemma {:induction false} SweepMarks(s: Store, s': Store, now: Instant)
    requires s' == Swept(s, now)
    ensures SweptEffect(s, s', now) && |Marked(s.subs, s'.subs)| == |DueRows(s.subs, now)|
  {
    SweepEffect(s, now);
    DueAreMarked(s.subs, now);
  }

  class Database {
    var users: map<UserId, User>
    var subs: seq<Subscription>
    const plans: Plans

    ghost function Contents(): Store
      reads this
    {
      Store(users, subs)
    }

    constructor (users: map<UserId, User>, plans: Plans)
      ensures Contents() == Store(users, []) && this.plans == plans
    {
      this.users := users;
      this.subs := [];
      this.plans := plans;
    }

    method ActivateSubscription(uid: UserId, code: string, chargeId: string, amount: int, now: Instant)
      returns (r: Result<nat, BillingError>)
      requires uid in users
      modifies this
      ensures Contents() == Activated(old(Contents()), plans, uid, code, chargeId, amount, now)
      ensures PaidEffect(plans, old(Contents()), Contents(), uid, code, chargeId, amount, now)
      ensures r.Ok? ==> r.value < |subs| && subs[r.value].chargeId == chargeId
      ensures r.Ok? <==> ChargeUsed(old(subs), chargeId) || OnSale(plans, code)
      ensures r.Err? ==> (r.error.UnknownOrInactivePlan? <==> code !in plans || !plans[code].isActive)
    {
      PaymentEffect(plans, Contents(), uid, code, chargeId, amount, now);
      var existing := FindCharge(subs, chargeId);
      if existing.Some? {
        return Ok(existing.value);
      }
      if code !in plans || !plans[code].isActive {
        return Err(UnknownOrInactivePlan);
      }
      var plan := plans[code];
      if plan.periodDays.None? || plan.periodDays.value == 0 {
        return Err(NotPurchasable);
      }
      var user := users[uid];
      var base := now;
      if user.premiumUntil.Some? {
        var currentExpiry := user.premiumUntil.value;
        if currentExpiry > now {
          base := currentExpiry;
        }
      }
      var expiresAt := base + plan.periodDays.value * DAY;
      subs := subs + [Subscription(uid, code, Active, now, Some(expiresAt), chargeId, amount)];
      users := users[uid := User(true, Some(expiresAt))];
      return Ok(|subs| - 1);
    }

    method BillingActivate(uid: UserId, code: string, chargeId: string, amount: int, now: Instant)
      returns (r: Result<Activation, BillingError>)
      modifies this
      ensures Contents() == Step(plans, old(Contents()), Pay(now, uid, code, chargeId, amount))
      ensures PaidEffect(plans, old(Contents()), Contents(), uid, code, chargeId, amount, now)
      ensures r.Ok? ==> uid in users && r.value.isPro == IsPro(users[uid], now)
      ensures r.Ok? ==> r.value.premiumUntil == users[uid].premiumUntil
      ensures r.Ok? ==> r.value.row < |subs| && subs[r.value.row].chargeId == chargeId
      ensures r.Ok? ==> (r.value.alreadyApplied <==> ChargeUsed(old(subs), chargeId))
      ensures r.Err? ==> subs == old(subs)
    {
      PaymentEffect(plans, Contents(), uid, code, chargeId, amount, now);
      if uid !in users {
        users := users[uid := FREE_USER];
      }
      var already := FindCharge(subs, chargeId).Some?;
      var sub := ActivateSubscription(uid, code, chargeId, amount, now);
      match sub
      case Err(e) => r := Err(e);
      case Ok(row) => r := Ok(Activation(IsPro(users[uid], now), row, users[uid].premiumUntil, already));
    }

    method GrantAccess(uid: UserId, days: int, kind: string, uuid: string, now: Instant)
      returns (r: Result<nat, GrantError>)
      requires uid in users
      modifies this
      ensures Contents() == Granted(old(Contents()), uid, days, kind, uuid, now)
      ensures GrantedEffect(old(Contents()), Contents(), uid, days, kind, uuid, now)
      ensures r.Ok? <==> Grantable(days, kind) && !ChargeUsed(old(subs), kind + ":" + uuid)
      ensures r.Ok? ==> r.value == |old(subs)| < |subs|
      ensures r == Err(BadKind) <==> kind != "gift" && kind != "trial" && kind != "manual"
      ensures r == Err(ChargeTaken) <==> Grantable(days, kind) && ChargeUsed(old(subs), kind + ":" + uuid)
    {
      GrantEffect(Contents(), uid, days, kind, uuid, now);
      if kind !in KINDS {
        return Err(BadKind);
      }
      if !(1 <= days <= 3650) {
        return Err(BadDays);
      }
      var user := users[uid];
      var until := user.premiumUntil;
      var base := if user.isPro && until.Some? && until.value > now then until.value else now;
      var exp := base + days * DAY;
      if FindCharge(subs, kind + ":" + uuid).Some? {
        return Err(ChargeTaken);
      }
      subs := subs + [Subscription(uid, "pro_monthly", Active, now, Some(exp), kind + ":" + uuid, 0)];
      users := users[uid := User(true, Some(exp))];
      return Ok(|subs| - 1);
    }

    method RevokeAccess(uid: UserId, now: Instant)
      requires uid in users
      modifies this
      ensures Contents() == AccessRevoked(old(Contents()), uid, now)
      ensures RevokedEffect(old(Contents()), Contents(), uid, now)
    {
      RevokeEffect(Contents(), uid, now);
      var i := 0;
      while i < |subs|
        invariant 0 <= i <= |subs| == |old(subs)|
        invariant users == old(users)
        invariant forall k :: 0 <= k < i ==> subs[k] == RevokeRow(old(subs)[k], uid, now)
        invariant forall k :: i <= k < |subs| ==> subs[k] == old(subs)[k]
      {
        if subs[i].userId == uid && subs[i].status.Active? {
          subs := subs[i := subs[i].(status := Revoked, expiresAt := Some(now))];
        }
        i := i + 1;
      }
      users := users[uid := User(false, Some(now))];
      assert subs == RevokedSubs(old(subs), uid, now);
    }

    method ReconcileUser(uid: UserId, now: Instant)
      requires uid in users
      modifies this
      ensures Contents() == Reconciled(old(Contents()), uid, now)
      ensures ReadEffect(old(Contents()), Contents(), uid, now)
      ensures users[uid].isPro <==> IsPro(old(users)[uid], now)
    {
      ReconcileEffect(Contents(), uid, now);
      var current := IsPro(users[uid], now);
      if users[uid].isPro && !current {
        users := users[uid := users[uid].(isPro := false)];
        var i := 0;
        while i < |subs|
          invariant 0 <= i <= |subs| == |old(subs)|
          invariant users == old(users)[uid := old(users)[uid].(isPro := false)]
          invariant forall k :: 0 <= k < i ==> subs[k] == LapseRow(old(subs)[k], uid)
          invariant forall k :: i <= k < |subs| ==> subs[k] == old(subs)[k]
        {
          if subs[i].userId == uid && subs[i].status.Active? {
            subs := subs[i := subs[i].(status := Expired)];
          }
          i := i + 1;
        }
        assert subs == LapsedSubs(old(subs), uid);
      }
    }

    /** The body of the sweep's loop. */
    method ExpireRow(row: nat, now: Instant)
      requires row < |subs|
      modifies this
      ensures Contents() == SweepOne(old(Contents()), row, now)
    {
      subs := subs[row := subs[row].(status := Expired)];
      var uid := subs[row].userId;
      if uid in users && !HasOtherActive(subs, uid, row, now) {
        users := users[uid := users[uid].(isPro := false)];
      }
    }

    method ExpireSubscriptions(now: Instant) returns (expired: nat)
      modifies this
      ensures Contents() == Swept(old(Contents()), now)
      ensures SweptEffect(old(Contents()), Contents(), now)
      ensures expired == |Marked(old(subs), subs)|
    {
      var due := DueRows(subs, now);
      ghost var before := Contents();
      expired := 0;
      while expired < |due|
        invariant 0 <= expired <= |due|
        invariant Contents() == SweepRows(before, due[..expired], now)
      {
        SweepRowsStep(before, due, expired, now);
        ExpireRow(due[expired], now);
        expired := expired + 1;
      }
      assert due[..expired] == due;
      SweepIsComplete(before, now);
      SweepMarks(before, Contents(), now);
    }

    /** One request of any kind. */
    method Handle(e: Event)
      modifies this
      ensures Contents() == Step(plans, old(Contents()), e)
    {
      match e
      case Pay(at, uid, plan, chargeId, amount) =>
        var _ := BillingActivate(uid, plan, chargeId, amount, at);
      case Grant(at, uid, days, kind, uuid) =>
        if uid in users {
          var _ := GrantAccess(uid, days, kind, uuid, at);
        }
      case Revoke(at, uid) =>
        if uid in users {
          RevokeAccess(uid, at);
        }
      case Read(at, uid) =>
        if uid in users {
          ReconcileUser(uid, at);
        }
      case Sweep(at) =>
        var _ := ExpireSubscriptions(at);
    }
  }
}
