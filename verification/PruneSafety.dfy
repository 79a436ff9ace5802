/** When exactly a prune of the blacklist can let a spent token through again. */
module PruneSafety {
  import opened Wrappers
  import opened Sequences
  import opened Auth
  import opened AuthSafety

  predicate NoPrune(events: seq<Event>) {
    forall i :: 0 <= i < |events| ==> !events[i].action.Prune?
  }

  // ---------- one run after another ----------

  lemma {:induction false} RunsJoin(w: World, first: seq<Event>, more: seq<Event>)
    ensures Run(w, first + more) == Run(Run(w, first), more)
  {
    if |more| == 0 {
      assert first + more == first;
    } else {
      var init := more[..|more| - 1];
      assert (first + more)[..|first + more| - 1] == first + init;
      RunsJoin(w, first, init);
    }
  }

  lemma {:induction false} ClocksJoin(first: seq<Event>, more: seq<Event>, start: Instant, middle: Instant,
                                      now: Instant)
    requires Chronological(first, start, middle) && Chronological(more, middle, now)
    ensures Chronological(first + more, start, now)
  {
    if |more| == 0 {
      assert first + more == first;
    } else {
      var init, e := more[..|more| - 1], more[|more| - 1];
      assert (first + more)[..|first + more| - 1] == first + init;
      ClocksJoin(first, init, start, middle, e.at);
    }
  }

  lemma {:induction false} HarmlessPrefix(w: World, events: seq<Event>, n: nat)
    requires HarmlessPrunes(w, events) && n <= |events|
    ensures HarmlessPrunes(w, events[..n])
  {
    if n == |events| {
      assert events[..n] == events;
    } else {
      HarmlessPrefix(w, events[..|events| - 1], n);
      assert events[..|events| - 1][..n] == events[..n];
    }
  }

  lemma {:induction false} HarmlessThenNone(w: World, first: seq<Event>, more: seq<Event>)
    requires HarmlessPrunes(w, first) && NoPrune(more)
    ensures HarmlessPrunes(w, first + more)
  {
    if |more| == 0 {
      assert first + more == first;
    } else {
      var init := more[..|more| - 1];
      assert (first + more)[..|first + more| - 1] == first + init;
      HarmlessThenNone(w, first, init);
    }
  }

  // ---------- one prune ----------

  /** However the run goes on from `now` without another prune, `/refresh` has accepted no jti twice. */
  ghost predicate OnceFrom(w: World, now: Instant) {
    forall events, t :: Chronological(events, now, t) && NoPrune(events) ==> Distinct(Run(w, events).log.accepted)
  }

  lemma PruneKeepsSafe(w: World, now: Instant)
    requires Safe(w, now) && HarmlessPrune(w, now)
    ensures Safe(Pruned(w, now), now)
  {
    QuietKeepsTokens(w, Pruned(w, now));
    PruneKeepsSpentDead(w, now);
    assert Pruned(w, now).log == w.log;
  }

  /** The invariant of runs survives a prune exactly when the prune is harmless. */
  lemma PruneKeepsSafeIff(w: World, now: Instant)
    requires Safe(w, now)
    ensures Safe(Pruned(w, now), now) <==> HarmlessPrune(w, now)
  {
    if HarmlessPrune(w, now) {
      PruneKeepsSafe(w, now);
    } else {
      var j :| j in w.db.blacklist && Prunable(w.db.blacklist[j], now) && Current(w, j)
        && w.db.blacklist[j] >= Clock(now);
      assert j in w.log.accepted && !Dead(Pruned(w, now), j, now);
    }
  }

  /** The account is made active, should it not be, and the spent token is presented once more. */
  function Again(w: World, now: Instant, j: Jti): seq<Event>
    requires j in w.log.refresh
  {
    [Event(now, SetActive(w.log.refresh[j].userId, true)), Event(now, Refresh(w.log.refresh[j]))]
  }

  lemma AgainIsAccepted(w: World, now: Instant, j: Jti)
    requires Safe(w, now)
    requires j in w.db.blacklist && Prunable(w.db.blacklist[j], now) && Current(w, j) && w.db.blacklist[j] >= Clock(now)
    ensures Run(Pruned(w, now), Again(w, now, j)).log.accepted == w.log.accepted + [j]
  {
    var w', es := Pruned(w, now), Again(w, now, j);
    var active := Step(w', es[0]);
    assert es[..1] == [es[0]] && es[..1][..0] == [];
    assert Run(w', es[..1]) == active;
    assert j !in active.db.blacklist && active.log == w.log;
    assert RefreshAccepted(active, w.log.refresh[j], now);
  }

  lemma PrunedTokenReturns(w: World, now: Instant, j: Jti)
    requires Safe(w, now)
    requires j in w.db.blacklist && Prunable(w.db.blacklist[j], now) && Current(w, j) && w.db.blacklist[j] >= Clock(now)
    ensures !OnceFrom(Pruned(w, now), now)
  {
    var es := Again(w, now, j);
    AgainIsAccepted(w, now, j);
    assert Chronological(es[..1][..0], now, now) && Chronological(es[..1], now, now) && Chronological(es, now, now);
    var i :| 0 <= i < |w.log.accepted| && w.log.accepted[i] == j;
    var accepted := w.log.accepted + [j];
    assert accepted[i] == accepted[|w.log.accepted|];
    assert NoPrune(es);
  }

  /**
   A prune lets no token be accepted twice, whatever requests follow it, exactly when every row it
   deletes is of a token that the clock already rejects or whose account has moved on.
   */
  lemma PruneIsHarmlessIff(w: World, now: Instant)
    requires Safe(w, now)
    ensures OnceFrom(Pruned(w, now), now) <==> HarmlessPrune(w, now)
  {
    if HarmlessPrune(w, now) {
      PruneKeepsSafe(w, now);
      forall events, t | Chronological(events, now, t) && NoPrune(events)
        ensures Distinct(Run(Pruned(w, now), events).log.accepted)
      {
        HarmlessThenNone(Pruned(w, now), [], events);
        assert [] + events == events;
        RunKeepsSafe(Pruned(w, now), events, now, t);
      }
    } else {
      var j :| j in w.db.blacklist && Prunable(w.db.blacklist[j], now) && Current(w, j)
        && w.db.blacklist[j] >= Clock(now);
      PrunedTokenReturns(w, now, j);
    }
  }

  // ---------- every prune of a run ----------

  /** `OnceFrom` after the requests of `events`. */
  ghost predicate OnceAfter(w: World, events: seq<Event>, start: Instant) {
    forall more, t :: Chronological(events + more, start, t) && NoPrune(more) ==>
      Distinct(Run(w, events + more).log.accepted)
  }

  lemma {:induction false} HarmlessGoesOn(w: World, events: seq<Event>, start: Instant)
    requires Safe(w, start) && HarmlessPrunes(w, events)
    ensures OnceAfter(w, events, start)
  {
    forall more, t | Chronological(events + more, start, t) && NoPrune(more)
      ensures Distinct(Run(w, events + more).log.accepted)
    {
      HarmlessThenNone(w, events, more);
      RunKeepsSafe(w, events + more, start, t);
    }
  }

  lemma {:induction false} OnceCarriesOver(w: World, events: seq<Event>, start: Instant)
    requires |events| > 0 && OnceAfter(w, events, start)
    requires Chronological(events, start, events[|events| - 1].at)
    ensures OnceFrom(Run(w, events), events[|events| - 1].at)
  {
    var at := events[|events| - 1].at;
    forall more, t | Chronological(more, at, t) && NoPrune(more)
      ensures Distinct(Run(Run(w, events), more).log.accepted)
    {
      ClocksJoin(events, more, start, at, t);
      RunsJoin(w, events, more);
    }
  }

  lemma {:induction false} PruneIsTheLastStep(w: World, events: seq<Event>)
    requires |events| > 0 && events[|events| - 1].action.Prune?
    ensures Run(w, events) == Pruned(Run(w, events[..|events| - 1]), events[|events| - 1].at)
  {
  }

  lemma OnceMeansHarmlessPrune(w: World, after: World, now: Instant)
    requires Safe(w, now) && after == Pruned(w, now) && OnceFrom(after, now)
    ensures HarmlessPrune(w, now)
  {
    PruneIsHarmlessIff(w, now);
  }

  lemma {:induction false} LastPruneIsHarmless(w: World, events: seq<Event>, start: Instant)
    requires |events| > 0 && events[|events| - 1].action.Prune?
    requires Safe(w, start) && Chronological(events, start, events[|events| - 1].at)
    requires HarmlessPrunes(w, events[..|events| - 1]) && OnceAfter(w, events, start)
    ensures HarmlessPrune(Run(w, events[..|events| - 1]), events[|events| - 1].at)
  {
    var init, at := events[..|events| - 1], events[|events| - 1].at;
    RunKeepsSafe(w, init, start, at);
    OnceCarriesOver(w, events, start);
    PruneIsTheLastStep(w, events);
    OnceMeansHarmlessPrune(Run(w, init), Run(w, events), at);
  }

  lemma {:induction false} OnceMeansHarmless(w: World, events: seq<Event>, start: Instant, now: Instant)
    requires Safe(w, start) && Chronological(events, start, now)
    requires forall n :: 0 <= n <= |events| ==> OnceAfter(w, events[..n], start)
    ensures HarmlessPrunes(w, events)
  {
    if |events| > 0 {
      var init, e := events[..|events| - 1], events[|events| - 1];
      forall n | 0 <= n <= |init| ensures OnceAfter(w, init[..n], start) {
        assert init[..n] == events[..n];
      }
      OnceMeansHarmless(w, init, start, e.at);
      if e.action.Prune? {
        assert events[..|events|] == events;
        LastPruneIsHarmless(w, events, start);
      }
    }
  }

  /**
   From any point of a run, however it goes on without another prune, `/refresh` accepts each jti at
   most once, exactly when all the run's prunes are harmless.
   */
  lemma {:induction false} EveryJtiOnceIff(w: World, events: seq<Event>, start: Instant, now: Instant)
    requires Safe(w, start) && Chronological(events, start, now)
    ensures HarmlessPrunes(w, events) <==> forall n :: 0 <= n <= |events| ==> OnceAfter(w, events[..n], start)
  {
    if HarmlessPrunes(w, events) {
      forall n | 0 <= n <= |events| ensures OnceAfter(w, events[..n], start) {
        HarmlessPrefix(w, events, n);
        HarmlessGoesOn(w, events[..n], start);
      }
    }
    if forall n :: 0 <= n <= |events| ==> OnceAfter(w, events[..n], start) {
      OnceMeansHarmless(w, events, start, now);
    }
  }

  // ---------- a prune that does harm ----------

  lemma {:induction false} RunPrefix(w: World, es: seq<Event>)
    requires |es| == 5
    ensures Run(w, es) == Step(Step(Step(Step(Step(w, es[0]), es[1]), es[2]), es[3]), es[4])
  {
    assert es[..4][..3] == es[..3] && es[..3][..2] == es[..2] && es[..2][..1] == es[..1] && es[..1][..0] == [];
    assert Run(w, es[..1]) == Step(w, es[0]);
    assert Run(w, es[..2]) == Step(Run(w, es[..1]), es[1]);
    assert Run(w, es[..3]) == Step(Run(w, es[..2]), es[2]);
    assert Run(w, es[..4]) == Step(Run(w, es[..3]), es[3]);
  }

  /** A refresh, a prune and the same refresh, all within the second in which the token expires. */
  function WithinTheSecond(token: Claims): seq<Event> {
    [Event(0, Register), Event(0, Login(0, true)),
     Event(REFRESH_TTL * SECOND + 1, Refresh(token)),
     Event(REFRESH_TTL * SECOND + 2, Prune),
     Event(REFRESH_TTL * SECOND + 3, Refresh(token))]
  }

  /** Pruning at such an instant lets a spent token through a second time. */
  lemma PruneWithinTheSecond()
    ensures var token := Claims(RefreshToken, 0, 0, Some(0), REFRESH_TTL);
            Run(EMPTY, WithinTheSecond(token)).log.accepted == [0, 0]
  {
    var token := Claims(RefreshToken, 0, 0, Some(0), REFRESH_TTL);
    var es := WithinTheSecond(token);
    var w1 := Step(EMPTY, es[0]);
    var w2 := Step(w1, es[1]);
    var w3 := Step(w2, es[2]);
    var w4 := Step(w3, es[3]);
    RunPrefix(EMPTY, es);
    assert w2.log.refresh[0] == token && RefreshAccepted(w2, token, es[2].at);
    assert w3.log.accepted == [0] && w3.db.blacklist == map[0 := REFRESH_TTL];
    assert w4.db.blacklist == map[];
    assert RefreshAccepted(w4, token, es[4].at);
  }

  // ---------- what a row of the blacklist is good for ----------

  lemma StepKeepsRow(w: World, e: Event, jti: Jti)
    requires jti in w.db.blacklist && (e.action.Prune? ==> !Prunable(w.db.blacklist[jti], e.at))
    ensures var after := Step(w, e).db.blacklist; jti in after && after[jti] == w.db.blacklist[jti]
  {
    if !e.action.Prune? && !(e.action.Refresh? && Mints(w, e)) {
      OnlyTwoTouchBlacklist(w, e);
    }
  }

  /**
   A blacklisted jti stays on the blacklist, with its first expiry, until a prune after that expiry, and so
   long no token that carries it is accepted at any instant.
   */
  lemma {:induction false} RevokedStaysRefused(w: World, events: seq<Event>, jti: Jti, token: Claims, t: Instant)
    requires jti in w.db.blacklist && token.jti == Some(jti)
    requires forall i :: 0 <= i < |events| && events[i].action.Prune? ==> !Prunable(w.db.blacklist[jti], events[i].at)
    ensures var after := Run(w, events).db.blacklist; jti in after && after[jti] == w.db.blacklist[jti]
    ensures !RefreshAccepted(Run(w, events), token, t)
  {
    if |events| > 0 {
      var init := events[..|events| - 1];
      RevokedStaysRefused(w, init, jti, token, t);
      StepKeepsRow(Run(w, init), events[|events| - 1], jti);
    }
  }
}
