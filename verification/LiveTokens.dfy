/** Two live refresh tokens from one login, and when exactly a prune can bring them about. */
module LiveTokens {
  import opened Auth
  import opened AuthSafety
  import opened PruneSafety

  /** An unspent token of family `f` that expires no earlier than the family's others. */
  ghost predicate NewestUnspent(log: Log, f: nat, u: Jti) {
    && u in log.refresh && u in log.family && log.family[u] == f && u !in log.accepted
    && forall j :: j in log.family && log.family[j] == f && j in log.refresh ==>
      log.refresh[j].exp <= log.refresh[u].exp
  }

  ghost predicate FamilyLives(log: Log, f: nat) {
    exists u :: NewestUnspent(log, f, u)
  }

  ghost predicate FamiliesLive(log: Log) {
    forall f: nat :: f < |log.families| ==> FamilyLives(log, f)
  }

  /** No token outlives one that would be issued at `now`. */
  ghost predicate IssuedBy(log: Log, now: Instant) {
    forall j :: j in log.refresh ==> log.refresh[j].exp <= Clock(now) + REFRESH_TTL
  }

  /** Token `n` joins family `f`, of which one token at most is spent for it. */
  ghost predicate Joins(log: Log, log': Log, f: nat, n: Jti, now: Instant) {
    && n !in log.refresh && n in log'.refresh && n !in log'.accepted
    && log'.refresh == log.refresh[n := log'.refresh[n]] && log'.family == log.family[n := f]
    && log'.refresh[n].exp == Clock(now) + REFRESH_TTL
    && f < |log'.families|
    && (|log'.families| == |log.families| || (|log'.families| == |log.families| + 1 && f == |log.families|))
    && forall j :: j in log'.accepted ==> j in log.accepted || (j in log.family && log.family[j] == f)
  }

  lemma JoiningKeepsFamilies(log: Log, log': Log, f: nat, n: Jti, now: Instant)
    requires log.family.Keys == log.refresh.Keys && FamiliesLive(log) && IssuedBy(log, now)
             && Joins(log, log', f, n, now)
    ensures FamiliesLive(log') && IssuedBy(log', now)
  {
    forall g: nat | g < |log'.families| ensures FamilyLives(log', g) {
      if g == f {
        assert NewestUnspent(log', f, n);
      } else {
        assert FamilyLives(log, g);
        var u :| NewestUnspent(log, g, u);
        assert NewestUnspent(log', g, u);
      }
    }
  }

  lemma LoginJoins(w: World, e: Event)
    requires TokensHold(w) && e.action.Login? && Mints(w, e)
    requires forall j :: j in w.log.accepted ==> j in w.log.refresh
    ensures Joins(w.log, Step(w, e).log, |w.log.families|, w.db.nextJti, e.at)
  {
  }

  lemma RefreshJoins(w: World, e: Event)
    requires TokensHold(w) && e.action.Refresh? && Mints(w, e)
    requires forall j :: j in w.log.accepted ==> j in w.log.refresh
    ensures Joins(w.log, Step(w, e).log, w.log.family[e.action.token.jti.value], w.db.nextJti, e.at)
  {
  }

  lemma PollJoins(w: World, e: Event)
    requires TokensHold(w) && e.action.PollQr? && Mints(w, e)
    requires forall j :: j in w.log.accepted ==> j in w.log.refresh
    ensures Joins(w.log, Step(w, e).log, |w.log.families|, w.db.nextJti, e.at)
  {
  }

  ghost predicate AllLive(w: World, now: Instant) {
    && TokensHold(w) && FamiliesLive(w.log) && IssuedBy(w.log, now)
    && forall j :: j in w.log.accepted ==> j in w.log.refresh
  }

  lemma QuietKeepsFamilies(w: World, w': World)
    requires FamiliesLive(w.log) && SameTokens(w, w')
    ensures FamiliesLive(w'.log)
  {
    forall f: nat | f < |w'.log.families| ensures FamilyLives(w'.log, f) {
      assert FamilyLives(w.log, f);
      var u :| NewestUnspent(w.log, f, u);
      assert NewestUnspent(w'.log, f, u);
    }
  }

  lemma StepKeepsFamilies(w: World, e: Event)
    requires AllLive(w, e.at)
    ensures FamiliesLive(Step(w, e).log) && IssuedBy(Step(w, e).log, e.at)
  {
    if !Mints(w, e) {
      OtherStepsLeaveLog(w, e);
      QuietKeepsFamilies(w, Step(w, e));
    } else if e.action.Login? {
      LoginJoins(w, e);
      JoiningKeepsFamilies(w.log, Step(w, e).log, |w.log.families|, w.db.nextJti, e.at);
    } else if e.action.Refresh? {
      RefreshJoins(w, e);
      JoiningKeepsFamilies(w.log, Step(w, e).log, w.log.family[e.action.token.jti.value], w.db.nextJti, e.at);
    } else {
      PollJoins(w, e);
      JoiningKeepsFamilies(w.log, Step(w, e).log, |w.log.families|, w.db.nextJti, e.at);
    }
  }

  lemma StepKeepsAccepted(w: World, e: Event)
    requires TokensHold(w) && forall j :: j in w.log.accepted ==> j in w.log.refresh
    ensures forall j :: j in Step(w, e).log.accepted ==> j in Step(w, e).log.refresh
  {
    StepKeepsTokens(w, e);
    if e.action.Refresh? && Mints(w, e) {
      RefreshJoins(w, e);
    } else if !Mints(w, e) {
      OtherStepsLeaveLog(w, e);
    } else {
      OnlyTwoTouchBlacklist(w, e);
    }
  }

  /** In every run, whatever its prunes, each login or redemption has an unspent token that outlives its others. */
  lemma {:induction false} RunKeepsFamilies(w: World, events: seq<Event>, start: Instant, now: Instant)
    requires AllLive(w, start) && Chronological(events, start, now)
    ensures AllLive(Run(w, events), now)
  {
    if |events| > 0 {
      var init, e := events[..|events| - 1], events[|events| - 1];
      RunKeepsFamilies(w, init, start, e.at);
      StepKeepsTokens(Run(w, init), e);
      StepKeepsFamilies(Run(w, init), e);
      StepKeepsAccepted(Run(w, init), e);
    }
  }

  /** No two live tokens come from one login or redemption. */
  ghost predicate OneLiveAt(w: World, now: Instant) {
    forall j, k :: j in LiveTokens(w, now) && k in LiveTokens(w, now) && SameFamily(w.log, j, k) ==> j == k
  }

  /** So it stays, however the run goes on from `now` without another prune. */
  ghost predicate OneLiveFrom(w: World, now: Instant) {
    forall events, t :: Chronological(events, now, t) && NoPrune(events) ==> OneLiveAt(Run(w, events), t)
  }

  lemma SafeHasOneLive(w: World, now: Instant)
    requires Safe(w, now)
    ensures OneLiveAt(w, now)
  {
    forall j, k | j in LiveTokens(w, now) && k in LiveTokens(w, now) && SameFamily(w.log, j, k) ensures j == k {
      OneLivePerFamily(w, now, j, k);
    }
  }

  lemma HarmlessLeavesOneLive(w: World, now: Instant)
    requires Safe(w, now) && HarmlessPrune(w, now)
    ensures OneLiveFrom(Pruned(w, now), now)
  {
    var w' := Pruned(w, now);
    PruneKeepsSafe(w, now);
    forall events, t | Chronological(events, now, t) && NoPrune(events) ensures OneLiveAt(Run(w', events), t) {
      HarmlessThenNone(w', [], events);
      assert [] + events == events;
      RunKeepsSafe(w', events, now, t);
      SafeHasOneLive(Run(w', events), t);
    }
  }

  lemma {:induction false} RunOfOne(w: World, e: Event)
    ensures Run(w, [e]) == Step(w, e)
    ensures Chronological([e], e.at, e.at)
  {
    var es := [e];
    assert es[..|es| - 1] == [];
    assert Run(w, es) == Step(Run(w, es[..|es| - 1]), e);
  }

  /** The spent token that the prune let go and the unspent one of its family, once the account is active. */
  lemma TwinsAreLive(w: World, now: Instant, j: Jti, u: Jti)
    requires Safe(w, now) && j in w.log.family && NewestUnspent(w.log, w.log.family[j], u)
    requires j in w.db.blacklist && Prunable(w.db.blacklist[j], now) && Current(w, j) && w.db.blacklist[j] >= Clock(now)
    ensures !OneLiveAt(ActiveSet(Pruned(w, now), w.log.refresh[j].userId, true), now)
  {
    var active := ActiveSet(Pruned(w, now), w.log.refresh[j].userId, true);
    assert active.log == w.log && j !in active.db.blacklist && u !in active.db.blacklist;
    assert Acceptable(active, j, now) && Acceptable(active, u, now);
    assert SameFamily(active.log, j, u) && j != u;
    assert j in LiveTokens(active, now) && u in LiveTokens(active, now);
  }

  lemma UnspentOfFamily(w: World, now: Instant, j: Jti) returns (u: Jti)
    requires Safe(w, now) && FamiliesLive(w.log) && j in w.db.blacklist
    ensures j in w.log.family && NewestUnspent(w.log, w.log.family[j], u)
  {
    assert FamilyLives(w.log, w.log.family[j]);
    u :| NewestUnspent(w.log, w.log.family[j], u);
  }

  lemma SetActiveStep(w: World, e: Event)
    requires e.action.SetActive?
    ensures Step(w, e) == ActiveSet(w, e.action.uid, e.action.active)
  {
  }

  lemma TwinsAfterOne(w: World, e: Event)
    requires !e.action.Prune? && !OneLiveAt(Step(w, e), e.at)
    ensures !OneLiveFrom(w, e.at)
  {
    RunOfOne(w, e);
    assert NoPrune([e]);
  }

  lemma HarmfulMakesTwins(w: World, now: Instant, j: Jti)
    requires Safe(w, now) && FamiliesLive(w.log)
    requires j in w.db.blacklist && Prunable(w.db.blacklist[j], now) && Current(w, j) && w.db.blacklist[j] >= Clock(now)
    ensures !OneLiveFrom(Pruned(w, now), now)
  {
    var u := UnspentOfFamily(w, now, j);
    var e := Event(now, SetActive(w.log.refresh[j].userId, true));
    TwinsAreLive(w, now, j, u);
    SetActiveStep(Pruned(w, now), e);
    TwinsAfterOne(Pruned(w, now), e);
  }

  /**
   A prune never brings about two live tokens from one login, however the run goes on, exactly when every
   row it deletes is of a token that the clock already rejects or whose account has moved on.
   */
  lemma OneLiveIff(w: World, now: Instant)
    requires Safe(w, now) && AllLive(w, now)
    ensures OneLiveFrom(Pruned(w, now), now) <==> HarmlessPrune(w, now)
  {
    if HarmlessPrune(w, now) {
      HarmlessLeavesOneLive(w, now);
    } else {
      var j :| j in w.db.blacklist && Prunable(w.db.blacklist[j], now) && Current(w, j)
        && w.db.blacklist[j] >= Clock(now);
      HarmfulMakesTwins(w, now, j);
    }
  }

  // ---------- every prune of a run ----------

  lemma EmptyIsAllLive(now: Instant)
    ensures AllLive(EMPTY, now)
  {
    assert EMPTY.log.refresh.Keys == {};
    EmptyIsSafe(now);
  }

  /** `OneLiveFrom` after the requests of `events`. */
  ghost predicate OneLiveAfter(w: World, events: seq<Event>, start: Instant) {
    forall more, t :: Chronological(events + more, start, t) && NoPrune(more) ==> OneLiveAt(Run(w, events + more), t)
  }

  lemma {:induction false} HarmlessKeepsOneLive(w: World, events: seq<Event>, start: Instant)
    requires Safe(w, start) && HarmlessPrunes(w, events)
    ensures OneLiveAfter(w, events, start)
  {
    forall more, t | Chronological(events + more, start, t) && NoPrune(more)
      ensures OneLiveAt(Run(w, events + more), t)
    {
      HarmlessThenNone(w, events, more);
      RunKeepsSafe(w, events + more, start, t);
      SafeHasOneLive(Run(w, events + more), t);
    }
  }

  lemma {:induction false} OneLiveCarriesOver(w: World, events: seq<Event>, start: Instant)
    requires |events| > 0 && OneLiveAfter(w, events, start)
    requires Chronological(events, start, events[|events| - 1].at)
    ensures OneLiveFrom(Run(w, events), events[|events| - 1].at)
  {
    var at := events[|events| - 1].at;
    forall more, t | Chronological(more, at, t) && NoPrune(more) ensures OneLiveAt(Run(Run(w, events), more), t) {
      ClocksJoin(events, more, start, at, t);
      RunsJoin(w, events, more);
    }
  }

  lemma OneLiveMeansHarmlessPrune(w: World, after: World, now: Instant)
    requires Safe(w, now) && AllLive(w, now) && after == Pruned(w, now) && OneLiveFrom(after, now)
    ensures HarmlessPrune(w, now)
  {
    OneLiveIff(w, now);
  }

  lemma {:induction false} LastPruneLeavesOneLive(w: World, events: seq<Event>, start: Instant)
    requires |events| > 0 && events[|events| - 1].action.Prune?
    requires Safe(w, start) && AllLive(w, start) && Chronological(events, start, events[|events| - 1].at)
    requires HarmlessPrunes(w, events[..|events| - 1]) && OneLiveAfter(w, events, start)
    ensures HarmlessPrune(Run(w, events[..|events| - 1]), events[|events| - 1].at)
  {
    var init, at := events[..|events| - 1], events[|events| - 1].at;
    RunKeepsSafe(w, init, start, at);
    RunKeepsFamilies(w, init, start, at);
    OneLiveCarriesOver(w, events, start);
    PruneIsTheLastStep(w, events);
    OneLiveMeansHarmlessPrune(Run(w, init), Run(w, events), at);
  }

  lemma {:induction false} OneLiveMeansHarmless(w: World, events: seq<Event>, start: Instant, now: Instant)
    requires Safe(w, start) && AllLive(w, start) && Chronological(events, start, now)
    requires forall n :: 0 <= n <= |events| ==> OneLiveAfter(w, events[..n], start)
    ensures HarmlessPrunes(w, events)
  {
    if |events| > 0 {
      var init, e := events[..|events| - 1], events[|events| - 1];
      forall n | 0 <= n <= |init| ensures OneLiveAfter(w, init[..n], start) {
        assert init[..n] == events[..n];
      }
      OneLiveMeansHarmless(w, init, start, e.at);
      if e.action.Prune? {
        assert events[..|events|] == events;
        LastPruneLeavesOneLive(w, events, start);
      }
    }
  }

  /**
   From any point of a run that begins with nothing, however it goes on without another prune, no two live
   tokens come from one login or redemption, exactly when all the run's prunes are harmless.
   */
  lemma {:induction false} AlwaysOneLiveIff(events: seq<Event>, start: Instant, now: Instant)
    requires Chronological(events, start, now)
    ensures HarmlessPrunes(EMPTY, events) <==>
            forall n :: 0 <= n <= |events| ==> OneLiveAfter(EMPTY, events[..n], start)
  {
    EmptyIsSafe(start);
    EmptyIsAllLive(start);
    if HarmlessPrunes(EMPTY, events) {
      forall n | 0 <= n <= |events| ensures OneLiveAfter(EMPTY, events[..n], start) {
        HarmlessPrefix(EMPTY, events, n);
        HarmlessKeepsOneLive(EMPTY, events[..n], start);
      }
    }
    if forall n :: 0 <= n <= |events| ==> OneLiveAfter(EMPTY, events[..n], start) {
      OneLiveMeansHarmless(EMPTY, events, start, now);
    }
  }
}
