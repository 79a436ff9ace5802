/** What the program's documentation promises about purchases, expiry and retries, and exactly when it holds. */
module EntitlementLaws {
  import opened Wrappers
  import opened Billing
  import opened Ledger
  import opened Entitlement

  // ---------- lazy expiration is invisible ----------

  /** From `now` on, everybody is PRO at the same instants in both stores. */
  ghost predicate SameEntitlement(s: Store, s': Store, now: Instant) {
    s.users.Keys == s'.users.Keys &&
    forall uid, t :: uid in s.users && t >= now ==> IsPro(s.users[uid], t) == IsPro(s'.users[uid], t)
  }

  /** A row is left alone or, once its time is over, marked expired. */
  ghost predicate OnlyLapsedMarked(s: Store, s': Store, now: Instant) {
    |s.subs| == |s'.subs| &&
    forall i :: 0 <= i < |s.subs| && s'.subs[i] != s.subs[i] ==>
      && s'.subs[i] == s.subs[i].(status := Expired)
      && s.subs[i].status.Active? && s.subs[i].expiresAt.Some? && s.subs[i].expiresAt.value <= now
  }

  /** A sweep of any store is invisible exactly when nobody it clears was PRO at that instant. */
  lemma SweepIsInvisibleIff(s: Store, now: Instant)
    ensures SameEntitlement(s, Swept(s, now), now) <==>
            forall uid :: uid in s.users && SweepClears(s.subs, uid, now) ==> !IsPro(s.users[uid], now)
  {
    forall uid | uid in s.users && SweepClears(s.subs, uid, now)
      ensures !IsPro(Swept(s, now).users[uid], now)
    {
    }
    if SameEntitlement(s, Swept(s, now), now) {
      forall uid | uid in s.users && SweepClears(s.subs, uid, now)
        ensures !IsPro(s.users[uid], now)
      {
        assert IsPro(s.users[uid], now) == IsPro(Swept(s, now).users[uid], now);
      }
    }
  }

  lemma SweepOfCoherentStore(s: Store, now: Instant)
    requires CoherentStore(s, now)
    ensures SameEntitlement(s, Swept(s, now), now) && OnlyLapsedMarked(s, Swept(s, now), now)
  {
    forall uid | uid in s.users && SweepClears(s.subs, uid, now)
      ensures !IsPro(s.users[uid], now)
    {
      assert Coherent(s.users[uid], s.subs, uid, now);
      if IsPro(s.users[uid], now) {
        SweepSparesLive(s, uid, now);
      }
    }
    SweepIsInvisibleIff(s, now);
  }

  lemma ReadOfCoherentStore(s: Store, uid: UserId, now: Instant)
    requires CoherentStore(s, now) && uid in s.users
    ensures SameEntitlement(s, Reconciled(s, uid, now), now)
    ensures OnlyLapsedMarked(s, Reconciled(s, uid, now), now)
  {
    assert Coherent(s.users[uid], s.subs, uid, now);
  }

  /**
   In every reachable store a read or a sweep changes nobody's entitlement, at that instant or later,
   and marks expired only rows with no time left.
   */
  lemma {:induction false} LazyExpirationIsInvisible(plans: Plans, s: Store, events: seq<Event>, start: Instant,
                                                     e: Event)
    requires Fresh(s) && Chronological(events, start, e.at)
    requires e.Read? || e.Sweep?
    ensures SameEntitlement(Run(plans, s, events), Step(plans, Run(plans, s, events), e), e.at)
    ensures OnlyLapsedMarked(Run(plans, s, events), Step(plans, Run(plans, s, events), e), e.at)
  {
    RunsStayInSync(plans, s, events, start, e.at);
    if e.Sweep? {
      SweepOfCoherentStore(Run(plans, s, events), e.at);
    } else if e.uid in Run(plans, s, events).users {
      ReadOfCoherentStore(Run(plans, s, events), e.uid, e.at);
    }
  }

  // ---------- a purchase never loses time ----------

  predicate Perpetual(user: User) {
    user.isPro && user.premiumUntil.None?
  }

  ghost predicate KeepsTime(user: User, user': User, now: Instant) {
    forall t :: t >= now && IsPro(user, t) ==> IsPro(user', t)
  }

  /** Paying again loses no time, exactly for the users whose PRO has an end. */
  lemma PaymentKeepsTimeIff(s: Store, plans: Plans, uid: UserId, plan: string, chargeId: string, amount: int,
                            now: Instant)
    requires uid in s.users && !ChargeUsed(s.subs, chargeId) && ListedDays(plans, plan) > 0
    ensures KeepsTime(s.users[uid], Activated(s, plans, uid, plan, chargeId, amount, now).users[uid], now)
            <==> !Perpetual(s.users[uid])
  {
    var user' := Activated(s, plans, uid, plan, chargeId, amount, now).users[uid];
    if Perpetual(s.users[uid]) {
      assert IsPro(s.users[uid], user'.premiumUntil.value) && !IsPro(user', user'.premiumUntil.value);
    }
  }

  lemma GrantKeepsTimeIff(s: Store, uid: UserId, days: int, kind: string, uuid: string, now: Instant)
    requires uid in s.users && GrantAccepted(s, days, kind, uuid)
    ensures KeepsTime(s.users[uid], Granted(s, uid, days, kind, uuid, now).users[uid], now)
            <==> !Perpetual(s.users[uid])
  {
    var user' := Granted(s, uid, days, kind, uuid, now).users[uid];
    if Perpetual(s.users[uid]) {
      assert IsPro(s.users[uid], user'.premiumUntil.value) && !IsPro(user', user'.premiumUntil.value);
    }
  }

  /** Somebody flagged PRO by hand, for ever, who buys a month is left with a month. */
  lemma MonthEndsPerpetualPro(now: Instant)
    ensures var s := Store(map[1 := User(true, None)], []);
            var plans := map["pro_monthly" := Plan(true, Some(30))];
            && IsPro(s.users[1], now + 31 * DAY)
            && !IsPro(Step(plans, s, Pay(now, 1, "pro_monthly", "c", 250)).users[1], now + 31 * DAY)
  {
    assert ListedDays(map["pro_monthly" := Plan(true, Some(30))], "pro_monthly") == 30;
  }

  // ---------- the time granted is the time bought ----------

  /** Days that `e` adds to the account of `uid`. */
  function DaysSold(plans: Plans, b: Book, e: Event, uid: UserId): nat {
    match e
    case Pay(_, u, plan, chargeId, _) =>
      if u == uid && chargeId !in b.charges then ListedDays(plans, plan) else 0
    case Grant(_, u, days, kind, uuid) =>
      if u == uid && uid in b.accounts && kind in KINDS && 1 <= days <= 3650 && kind + ":" + uuid !in b.charges
      then days
      else 0
    case _ => 0
  }

  function AllDaysSold(plans: Plans, b: Book, events: seq<Event>, uid: UserId): nat {
    if |events| == 0 then 0
    else
      var init := events[..|events| - 1];
      AllDaysSold(plans, b, init, uid) + DaysSold(plans, PostAll(plans, b, init), events[|events| - 1], uid)
  }

  predicate RevokesUser(e: Event, uid: UserId) {
    e.Revoke? && e.uid == uid
  }

  lemma {:induction false} LengthAfterPurchase(a: Account, days: nat, now: Instant)
    ensures TotalLength(Bought(a, days, now)) == TotalLength(a) + days * DAY
  {
    assert Bought(a, days, now)[..|a|] == a;
  }

  lemma {:induction false} LengthAfterCut(a: Account, now: Instant)
    ensures TotalLength(CutAll(a, now)) <= TotalLength(a)
  {
    if |a| == 0 {
    } else {
      LengthAfterCut(a[..|a| - 1], now);
      assert CutAll(a, now)[..|a| - 1] == CutAll(a[..|a| - 1], now);
    }
  }

  function AccountOf(b: Book, uid: UserId): Account {
    if uid in b.accounts then b.accounts[uid] else []
  }

  lemma LengthAfterPost(plans: Plans, b: Book, e: Event, uid: UserId)
    ensures var before, after := TotalLength(AccountOf(b, uid)), TotalLength(AccountOf(Post(plans, b, e), uid));
            after <= before + DaysSold(plans, b, e, uid) * DAY &&
            (!RevokesUser(e, uid) ==> after == before + DaysSold(plans, b, e, uid) * DAY)
  {
    var a := AccountOf(b, uid);
    if DaysSold(plans, b, e, uid) > 0 {
      LengthAfterPurchase(a, DaysSold(plans, b, e, uid), e.at);
      assert AccountOf(Post(plans, b, e), uid) == Bought(a, DaysSold(plans, b, e, uid), e.at);
    } else if RevokesUser(e, uid) {
      LengthAfterCut(a, e.at);
    } else {
      assert AccountOf(Post(plans, b, e), uid) == a;
    }
  }

  /** The account's periods, disjoint as they are, last as long as what was sold; a revocation only shortens them. */
  lemma {:induction false} GrantedTimeIsSoldTime(plans: Plans, b: Book, events: seq<Event>, uid: UserId)
    requires AccountOf(b, uid) == []
    ensures TotalLength(AccountOf(PostAll(plans, b, events), uid)) <= AllDaysSold(plans, b, events, uid) * DAY
    ensures (forall i :: 0 <= i < |events| ==> !RevokesUser(events[i], uid)) ==>
              TotalLength(AccountOf(PostAll(plans, b, events), uid)) == AllDaysSold(plans, b, events, uid) * DAY
  {
    if |events| == 0 {
    } else {
      var init, e := events[..|events| - 1], events[|events| - 1];
      var b1 := PostAll(plans, b, init);
      GrantedTimeIsSoldTime(plans, b, init, uid);
      LengthAfterPost(plans, b1, e, uid);
      var sold, more := AllDaysSold(plans, b, init, uid), DaysSold(plans, b1, e, uid);
      assert AllDaysSold(plans, b, events, uid) == sold + more;
      assert (sold + more) * DAY == sold * DAY + more * DAY;
      assert PostAll(plans, b, events) == Post(plans, b1, e);
    }
  }

  // ---------- retries ----------

  ghost predicate ChargesDistinct(subs: seq<Subscription>) {
    forall i, j :: 0 <= i < j < |subs| ==> subs[i].chargeId != subs[j].chargeId
  }

  /** No two rows ever share a charge id, whatever the run. */
  lemma {:induction false} ChargesStayDistinct(plans: Plans, s: Store, events: seq<Event>)
    requires ChargesDistinct(s.subs)
    ensures ChargesDistinct(Run(plans, s, events).subs)
  {
    if |events| > 0 {
      ChargesStayDistinct(plans, s, events[..|events| - 1]);
    }
  }

  /** A payment with a recorded charge id changes nothing, unless it opens an account for a new payer. */
  lemma RepeatIsNoOpIff(plans: Plans, s: Store, e: Event)
    requires e.Pay? && ChargeUsed(s.subs, e.chargeId)
    ensures Step(plans, s, e) == s <==> e.uid in s.users
  {
  }

  /** A recorded charge that is relayed once more, for somebody without an account, leaves an account behind. */
  lemma RepeatOpensAccount(now: Instant)
    ensures var plans := map["pro_monthly" := Plan(true, Some(30))];
            var s := Step(plans, Store(map[], []), Pay(now, 1, "pro_monthly", "c", 250));
            && ChargeUsed(s.subs, "c")
            && Step(plans, s, Pay(now, 2, "pro_monthly", "c", 250)) == s.(users := s.users[2 := FREE_USER]) != s
  {
    var plans := map["pro_monthly" := Plan(true, Some(30))];
    assert ListedDays(plans, "pro_monthly") == 30;
    var s := Step(plans, Store(map[], []), Pay(now, 1, "pro_monthly", "c", 250));
    assert s.subs[0].chargeId == "c" && 2 !in s.users;
  }

  /** The charge ids of the purchasable payments among `events`. */
  function SoldCharges(plans: Plans, events: seq<Event>): set<string> {
    if |events| == 0 then {}
    else
      var init, e := events[..|events| - 1], events[|events| - 1];
      SoldCharges(plans, init) +
      if e.Pay? && ListedDays(plans, e.plan) > 0 then {e.chargeId} else {}
  }

  /** The run with every repeated payment struck out. */
  function WithoutRepeats(plans: Plans, events: seq<Event>): seq<Event> {
    if |events| == 0 then []
    else
      var init, e := events[..|events| - 1], events[|events| - 1];
      if e.Pay? && e.chargeId in SoldCharges(plans, init) then WithoutRepeats(plans, init)
      else WithoutRepeats(plans, init) + [e]
  }

  lemma StepKeepsRecords(plans: Plans, s: Store, e: Event, c: string)
    ensures ChargeUsed(s.subs, c) ==> ChargeUsed(Step(plans, s, e).subs, c)
    ensures s.users.Keys <= Step(plans, s, e).users.Keys
  {
    var subs' := Step(plans, s, e).subs;
    assert |s.subs| <= |subs'| && forall i :: 0 <= i < |s.subs| ==> subs'[i].chargeId == s.subs[i].chargeId;
    if ChargeUsed(s.subs, c) {
      var i :| 0 <= i < |s.subs| && s.subs[i].chargeId == c;
      assert subs'[i].chargeId == c;
    }
  }

  lemma PaymentRecordsCharge(plans: Plans, s: Store, e: Event)
    requires e.Pay? && ListedDays(plans, e.plan) > 0
    ensures ChargeUsed(Step(plans, s, e).subs, e.chargeId) && e.uid in Step(plans, s, e).users
  {
    var s1 := WithUser(s, e.uid);
    if !ChargeUsed(s.subs, e.chargeId) {
      var subs' := Step(plans, s, e).subs;
      assert subs'[|s.subs|].chargeId == e.chargeId;
    }
  }

  /** The earlier payment with the same charge id left the charge on record, whoever it was from. */
  lemma {:induction false} RepeatIsOnRecord(plans: Plans, s: Store, events: seq<Event>, chargeId: string)
    requires chargeId in SoldCharges(plans, events)
    ensures ChargeUsed(Run(plans, s, events).subs, chargeId)
  {
    var init, e := events[..|events| - 1], events[|events| - 1];
    if e.Pay? && ListedDays(plans, e.plan) > 0 && e.chargeId == chargeId {
      PaymentRecordsCharge(plans, Run(plans, s, init), e);
    } else {
      RepeatIsOnRecord(plans, s, init, chargeId);
      StepKeepsRecords(plans, Run(plans, s, init), e, chargeId);
    }
  }

  predicate IsRepeat(plans: Plans, before: seq<Event>, e: Event) {
    e.Pay? && e.chargeId in SoldCharges(plans, before)
  }

  /** Every repeated payment finds its payer's account when it arrives. */
  ghost predicate RepeatsFindAccounts(plans: Plans, s: Store, events: seq<Event>) {
    |events| > 0 ==>
      var init, e := events[..|events| - 1], events[|events| - 1];
      RepeatsFindAccounts(plans, s, init) && (IsRepeat(plans, init, e) ==> e.uid in Run(plans, s, init).users)
  }

  lemma {:induction false} RepeatIsDropped(plans: Plans, init: seq<Event>, e: Event)
    requires IsRepeat(plans, init, e)
    ensures WithoutRepeats(plans, init + [e]) == WithoutRepeats(plans, init)
  {
    assert (init + [e])[..|init|] == init;
  }

  lemma {:induction false} KeptEventRuns(plans: Plans, s: Store, init: seq<Event>, e: Event)
    requires !IsRepeat(plans, init, e)
    ensures Run(plans, s, WithoutRepeats(plans, init + [e]))
            == Step(plans, Run(plans, s, WithoutRepeats(plans, init)), e)
  {
    var kept := WithoutRepeats(plans, init);
    assert (init + [e])[..|init|] == init;
    assert (kept + [e])[..|kept|] == kept;
  }

  /**
   Retried payments, however late and whatever happened in between, leave the tables as if sent once,
   provided that every retry finds its payer's account.
   */
  lemma {:induction false} RetriesChangeNothing(plans: Plans, s: Store, events: seq<Event>)
    requires RepeatsFindAccounts(plans, s, events)
    ensures Run(plans, s, WithoutRepeats(plans, events)) == Run(plans, s, events)
  {
    if |events| > 0 {
      var init, e := events[..|events| - 1], events[|events| - 1];
      RetriesChangeNothing(plans, s, init);
      if IsRepeat(plans, init, e) {
        RepeatIsOnRecord(plans, s, init, e.chargeId);
        RepeatIsNoOpIff(plans, Run(plans, s, init), e);
        RepeatIsDropped(plans, init, e);
      } else {
        KeptEventRuns(plans, s, init, e);
      }
      assert events == init + [e];
    }
  }

  /** As if sent once, so far. */
  ghost predicate AsIfSentOnce(plans: Plans, s: Store, events: seq<Event>) {
    Run(plans, s, WithoutRepeats(plans, events)) == Run(plans, s, events)
  }

  lemma {:induction false} LastRepeatFindsAccount(plans: Plans, s: Store, events: seq<Event>)
    requires |events| > 0 && AsIfSentOnce(plans, s, events[..|events| - 1]) && AsIfSentOnce(plans, s, events)
    requires IsRepeat(plans, events[..|events| - 1], events[|events| - 1])
    ensures events[|events| - 1].uid in Run(plans, s, events[..|events| - 1]).users
  {
    var init, e := events[..|events| - 1], events[|events| - 1];
    RepeatIsOnRecord(plans, s, init, e.chargeId);
    RepeatIsNoOpIff(plans, Run(plans, s, init), e);
  }

  /**
   All through a run the tables are as if every payment were sent once, exactly when every retry finds its
   payer's account.
   */
  lemma {:induction false} RetriesChangeNothingIff(plans: Plans, s: Store, events: seq<Event>)
    ensures RepeatsFindAccounts(plans, s, events) <==>
            forall n :: 0 <= n <= |events| ==> AsIfSentOnce(plans, s, events[..n])
  {
    var init := events[..|events| - if |events| > 0 then 1 else 0];
    assert events[..|events|] == events;
    if |events| > 0 {
      RetriesChangeNothingIff(plans, s, init);
      forall n | 0 <= n <= |init| ensures init[..n] == events[..n] {
      }
      if RepeatsFindAccounts(plans, s, events) {
        RetriesChangeNothing(plans, s, events);
        forall n | 0 <= n <= |events| ensures AsIfSentOnce(plans, s, events[..n]) {
          assert n < |events| ==> events[..n] == init[..n];
        }
      } else if forall n :: 0 <= n <= |events| ==> AsIfSentOnce(plans, s, events[..n]) {
        forall n | 0 <= n <= |init| ensures AsIfSentOnce(plans, s, init[..n]) {
          assert init[..n] == events[..n];
        }
        LastRepeatFindsAccount(plans, s, events);
      }
    }
  }

  /** A charge id always comes from the same payer. */
  ghost predicate OnePayerPerCharge(events: seq<Event>) {
    forall i, j ::
      0 <= i < j < |events| && events[i].Pay? && events[j].Pay? && events[i].chargeId == events[j].chargeId ==>
      events[i].uid == events[j].uid
  }

  lemma {:induction false} PayerIsOnRecord(plans: Plans, s: Store, events: seq<Event>, repeat: Event)
    requires IsRepeat(plans, events, repeat) && OnePayerPerCharge(events + [repeat])
    ensures repeat.uid in Run(plans, s, events).users
  {
    var init, e := events[..|events| - 1], events[|events| - 1];
    var all := events + [repeat];
    if e.Pay? && ListedDays(plans, e.plan) > 0 && e.chargeId == repeat.chargeId {
      assert all[|events| - 1] == e && all[|events|] == repeat;
      PaymentRecordsCharge(plans, Run(plans, s, init), e);
    } else {
      var shorter := init + [repeat];
      assert forall i :: 0 <= i < |init| ==> shorter[i] == all[i];
      assert shorter[|init|] == all[|events|];
      PayerIsOnRecord(plans, s, init, repeat);
      StepKeepsRecords(plans, Run(plans, s, init), e, repeat.chargeId);
    }
  }

  /** So it is whenever Telegram retries payments of its own: a charge id names one payer. */
  lemma {:induction false} OnePayerIsEnough(plans: Plans, s: Store, events: seq<Event>)
    requires OnePayerPerCharge(events)
    ensures RepeatsFindAccounts(plans, s, events)
  {
    if |events| > 0 {
      var init, e := events[..|events| - 1], events[|events| - 1];
      assert events == init + [e];
      OnePayerIsEnough(plans, s, init);
      if IsRepeat(plans, init, e) {
        PayerIsOnRecord(plans, s, init, e);
      }
    }
  }
}
