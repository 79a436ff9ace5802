/** What the manager's screen says about a user's access. */
module Access {
  import opened Wrappers
  import opened Billing
  import opened Entitlement

  datatype State = NoAccount | ProState | FreeState

  datatype Info = Info(state: State, until: Option<Instant>, daysLeft: Option<nat>, kind: Option<string>,
                       trialUsed: bool)

  /** Everything before the first colon. */
  function BeforeColon(s: string): (r: string)
    ensures ':' !in r && r <= s
    ensures r == s || s[|r|] == ':'
  {
    if |s| == 0 || s[0] == ':' then "" else [s[0]] + BeforeColon(s[1..])
  }

  /** Payments come with Telegram's own charge ids; managers' grants carry their kind in front. */
  function KindOf(chargeId: string): (kind: string)
    ensures BeforeColon(chargeId) == "gift" || BeforeColon(chargeId) == "trial" || BeforeColon(chargeId) == "manual" ==>
              kind == BeforeColon(chargeId)
    ensures kind == "gift" || kind == "trial" || kind == "manual" ==> kind == BeforeColon(chargeId)
    ensures kind == BeforeColon(chargeId) || kind == "paid"
  {
    if BeforeColon(chargeId) in KINDS then BeforeColon(chargeId) else "paid"
  }

  /** The row the screen describes: the newest active one with time left. */
  function CurrentRow(subs: seq<Subscription>, uid: UserId, now: Instant): (r: Option<nat>)
    ensures r.Some? ==> r.value < |subs|
  {
    if |subs| == 0 then None
    else
      var last := subs[|subs| - 1];
      if ActiveRowOf(last, uid) && last.expiresAt.Some? && last.expiresAt.value > now then Some(|subs| - 1)
      else CurrentRow(subs[..|subs| - 1], uid, now)
  }

  /** Rounded up to whole days, from the whole seconds left. */
  function DaysLeft(until: Instant, now: Instant): nat
    requires until > now
  {
    -(-((until - now) / SECOND) / 86_400)
  }

  /** The newest `n` rows of `uid`, the newest first. */
  function Newest(subs: seq<Subscription>, uid: UserId, n: nat): seq<Subscription> {
    if |subs| == 0 || n == 0 then []
    else
      var last := subs[|subs| - 1];
      if last.userId == uid then [last] + Newest(subs[..|subs| - 1], uid, n - 1)
      else Newest(subs[..|subs| - 1], uid, n)
  }

  function AccessInfo(s: Store, uid: UserId, now: Instant): Info {
    if uid !in s.users then Info(NoAccount, None, None, None, false)
    else
      var user := s.users[uid];
      var until := user.premiumUntil;
      var on := user.isPro && (until.None? || until.value > now);
      var current := CurrentRow(s.subs, uid, now);
      var kind :=
        if current.Some? then Some(KindOf(s.subs[current.value].chargeId))
        else if on then Some("manual")
        else None;
      var history := Newest(s.subs, uid, 20);
      Info(
        if on then ProState else FreeState,
        if on then until else None,
        if on && until.Some? then Some(DaysLeft(until.value, now)) else None,
        kind,
        exists i :: 0 <= i < |history| && KindOf(history[i].chargeId) == "trial")
  }

  /** The days shown cover the whole seconds left, and a day less would not. */
  lemma DaysLeftRoundsUp(until: Instant, now: Instant)
    requires until > now
    ensures (DaysLeft(until, now) - 1) * 86_400 < (until - now) / SECOND <= DaysLeft(until, now) * 86_400
  {
  }

  lemma {:induction false} CurrentRowIsNewest(subs: seq<Subscription>, uid: UserId, now: Instant, i: int)
    requires NewestActive(subs, uid, i) && subs[i].expiresAt.Some? && subs[i].expiresAt.value > now
    ensures CurrentRow(subs, uid, now) == Some(i)
  {
    if i < |subs| - 1 {
      var init := subs[..|subs| - 1];
      assert forall j :: 0 <= j < |init| ==> init[j] == subs[j];
      CurrentRowIsNewest(init, uid, now, i);
    }
  }

  lemma {:induction false} NoTimeNoCurrentRow(subs: seq<Subscription>, uid: UserId, now: Instant)
    requires forall i :: 0 <= i < |subs| && ActiveRowOf(subs[i], uid) && subs[i].expiresAt.Some? ==>
             subs[i].expiresAt.value <= now
    ensures CurrentRow(subs, uid, now).None?
  {
    if |subs| > 0 {
      NoTimeNoCurrentRow(subs[..|subs| - 1], uid, now);
    }
  }

  lemma {:induction false} ExpiryIsCurrentRow(s: Store, uid: UserId, now: Instant)
    requires uid in s.users && Coherent(s.users[uid], s.subs, uid, now) && IsPro(s.users[uid], now)
    ensures CurrentRow(s.subs, uid, now).Some?
    ensures s.subs[CurrentRow(s.subs, uid, now).value].expiresAt == s.users[uid].premiumUntil
  {
    var i :| NewestActive(s.subs, uid, i) && s.subs[i].expiresAt == s.users[uid].premiumUntil;
    CurrentRowIsNewest(s.subs, uid, now, i);
  }

  /**
   The screen's state is the user's entitlement; while it lasts the expiry and the kind shown are those of
   one row, and without it neither is shown.
   */
  predicate ScreenAgrees(s: Store, uid: UserId, now: Instant)
    requires uid in s.users
  {
    var info, current := AccessInfo(s, uid, now), CurrentRow(s.subs, uid, now);
    if IsPro(s.users[uid], now) then
      && info.state.ProState? && info.until.Some? && info.daysLeft.Some? && current.Some?
      && info.until == s.users[uid].premiumUntil == s.subs[current.value].expiresAt
      && info.kind == Some(KindOf(s.subs[current.value].chargeId))
    else
      info.state.FreeState? && info.until.None? && info.daysLeft.None? && info.kind.None?
  }

  lemma CoherentScreenAgrees(s: Store, uid: UserId, now: Instant)
    requires uid in s.users && Coherent(s.users[uid], s.subs, uid, now)
    ensures ScreenAgrees(s, uid, now)
  {
    if IsPro(s.users[uid], now) {
      ExpiryIsCurrentRow(s, uid, now);
    } else {
      NoTimeNoCurrentRow(s.subs, uid, now);
    }
  }

  lemma {:induction false} ScreenTellsTheTruth(plans: Plans, s: Store, events: seq<Event>, start: Instant,
                                               now: Instant, uid: UserId)
    requires Fresh(s) && Chronological(events, start, now) && uid in Run(plans, s, events).users
    ensures ScreenAgrees(Run(plans, s, events), uid, now)
  {
    RunsStayInSync(plans, s, events, start, now);
    CoherentScreenAgrees(Run(plans, s, events), uid, now);
  }

  // ---------- the trial ----------

  /** How many rows of `uid` there are from number `from` on. */
  function RowsFrom(subs: seq<Subscription>, uid: UserId, from: nat): nat {
    if |subs| <= from then 0
    else RowsFrom(subs[..|subs| - 1], uid, from) + if subs[|subs| - 1].userId == uid then 1 else 0
  }

  /** Row `i` is one of `uid` whose charge id begins with `kind`, and fewer than `n` rows of `uid` come after it. */
  predicate AmongNewest(subs: seq<Subscription>, uid: UserId, n: nat, kind: string, i: nat) {
    i < |subs| && subs[i].userId == uid && BeforeColon(subs[i].chargeId) == kind && RowsFrom(subs, uid, i + 1) < n
  }

  ghost predicate HasOfKind(rows: seq<Subscription>, kind: string) {
    exists k :: 0 <= k < |rows| && KindOf(rows[k].chargeId) == kind
  }

  ghost predicate AnyAmongNewest(subs: seq<Subscription>, uid: UserId, n: nat, kind: string) {
    exists i :: AmongNewest(subs, uid, n, kind, i)
  }

  lemma AnyAmongNewestStep(subs: seq<Subscription>, uid: UserId, n: nat, kind: string)
    requires |subs| > 0 && n > 0
    ensures var init, last := subs[..|subs| - 1], subs[|subs| - 1];
            AnyAmongNewest(subs, uid, n, kind) <==>
            if last.userId == uid then BeforeColon(last.chargeId) == kind || AnyAmongNewest(init, uid, n - 1, kind)
            else AnyAmongNewest(init, uid, n, kind)
  {
    var init, last := subs[..|subs| - 1], subs[|subs| - 1];
    var m := if last.userId == uid then n - 1 else n;
    forall i: nat | i < |init| ensures AmongNewest(init, uid, m, kind, i) <==> AmongNewest(subs, uid, n, kind, i) {
      assert init[i] == subs[i];
    }
    assert AmongNewest(subs, uid, n, kind, |init|) <==> last.userId == uid && BeforeColon(last.chargeId) == kind;
  }

  lemma NewestOne(subs: seq<Subscription>, uid: UserId, n: nat, kind: string)
    requires |subs| > 0 && n > 0 && kind in KINDS
    ensures var init, last := subs[..|subs| - 1], subs[|subs| - 1];
            HasOfKind(Newest(subs, uid, n), kind) <==>
            if last.userId == uid then BeforeColon(last.chargeId) == kind || HasOfKind(Newest(init, uid, n - 1), kind)
            else HasOfKind(Newest(init, uid, n), kind)
  {
    var init, last := subs[..|subs| - 1], subs[|subs| - 1];
    if last.userId == uid {
      var rest, all := Newest(init, uid, n - 1), Newest(subs, uid, n);
      assert all == [last] + rest;
      if HasOfKind(rest, kind) {
        var k :| 0 <= k < |rest| && KindOf(rest[k].chargeId) == kind;
        assert all[k + 1] == rest[k];
      }
      if BeforeColon(last.chargeId) == kind {
        assert KindOf(all[0].chargeId) == kind;
      }
    }
  }

  lemma {:induction false} NewestHasIff(subs: seq<Subscription>, uid: UserId, n: nat, kind: string)
    requires kind in KINDS
    ensures HasOfKind(Newest(subs, uid, n), kind) <==> AnyAmongNewest(subs, uid, n, kind)
  {
    if |subs| > 0 && n > 0 {
      var init, last := subs[..|subs| - 1], subs[|subs| - 1];
      var m := if last.userId == uid then n - 1 else n;
      NewestOne(subs, uid, n, kind);
      NewestHasIff(init, uid, m, kind);
      AnyAmongNewestStep(subs, uid, n, kind);
    }
  }

  /** The screen says that the trial was used exactly if a trial is among the user's twenty newest rows. */
  lemma TrialUsedIff(s: Store, uid: UserId, now: Instant)
    requires uid in s.users
    ensures AccessInfo(s, uid, now).trialUsed <==> AnyAmongNewest(s.subs, uid, 20, "trial")
  {
    NewestHasIff(s.subs, uid, 20, "trial");
  }

  lemma {:induction false} KindBeforeColon(kind: string, rest: string)
    requires ':' !in kind
    ensures BeforeColon(kind + ":" + rest) == kind
  {
    var s := kind + ":" + rest;
    if |kind| > 0 {
      assert s[1..] == kind[1..] + ":" + rest;
      KindBeforeColon(kind[1..], rest);
    }
  }

  /** An accepted grant is what the screen shows next, under the grant's own kind. */
  lemma GrantShowsItsKind(s: Store, uid: UserId, days: int, kind: string, uuid: string, now: Instant)
    requires uid in s.users && GrantAccepted(s, days, kind, uuid)
    ensures var info := AccessInfo(Granted(s, uid, days, kind, uuid, now), uid, now);
            info.state.ProState? && info.kind == Some(kind)
            && info.until == Some(GrantBase(s.users[uid], now) + days * DAY)
  {
    var s' := Granted(s, uid, days, kind, uuid, now);
    KindBeforeColon(kind, uuid);
    assert CurrentRow(s'.subs, uid, now) == Some(|s.subs|);
  }
}
