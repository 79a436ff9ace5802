/**
 Safety of refresh-token rotation (section 5.2.2.3 of RFC 6819) in every run of logins, QR
 redemptions, refreshes, password changes and prunes, interleaved in any order.
 */
module AuthSafety {
  import opened Wrappers
  import opened Auth
  import opened Sequences

  // ---------- tokens and the accounts they name ----------

  /** Every refresh token carries its own jti, an account's id and a version that account has had. */
  ghost predicate WellIssued(w: World) {
    && (forall t :: t in w.log.others ==> !t.kind.RefreshToken?)
    && (forall j :: j in w.log.refresh ==>
          && j < w.db.nextJti
          && w.log.refresh[j].kind.RefreshToken? && w.log.refresh[j].jti == Some(j)
          && w.log.refresh[j].userId in w.db.accounts
          && w.log.refresh[j].version <= w.db.accounts[w.log.refresh[j].userId].tokenVersion)
  }

  /** A family is a login and everything rotated from it: one user, one version. */
  ghost predicate FamiliesHold(log: Log) {
    && log.family.Keys == log.refresh.Keys
    && (forall j :: j in log.refresh ==>
          log.family[j] < |log.families| &&
          log.families[log.family[j]] == Family(log.refresh[j].userId, log.refresh[j].version))
  }

  /** A new account never takes the id of an existing one. */
  ghost predicate IdsFresh(db: Db) {
    forall uid :: uid in db.accounts ==> uid < db.nextUser
  }

  ghost predicate TokensHold(w: World) {
    WellIssued(w) && FamiliesHold(w.log) && IdsFresh(w.db)
  }

  /** Nothing issued is ever taken back or altered, and versions only grow. */
  ghost predicate Later(w: World, w': World) {
    && (forall j :: j in w.log.refresh ==> j in w'.log.refresh && w'.log.refresh[j] == w.log.refresh[j])
    && (forall j :: j in w.log.family ==> j in w'.log.family && w'.log.family[j] == w.log.family[j])
    && (forall uid :: uid in w.db.accounts ==>
          uid in w'.db.accounts && w.db.accounts[uid].tokenVersion <= w'.db.accounts[uid].tokenVersion)
    && w.log.accepted <= w'.log.accepted
  }

  /** The steps that can hand out tokens. */
  lemma MintingSteps(w: World, e: Event)
    ensures e.action.Login? ==> Step(w, e) == LoggedIn(w, e.action.uid, e.action.passwordOk, e.at)
    ensures e.action.Refresh? ==> Step(w, e) == Refreshed(w, e.action.token, e.at)
    ensures e.action.PollQr? ==> Step(w, e) == QrPolled(w, e.action.sid, e.at)
  {
  }

  lemma MintIsLater(w: World, uid: UserId, family: nat, now: Instant)
    requires WellIssued(w) && FamiliesHold(w.log) && uid in w.db.accounts
    ensures Later(w, Mint(w, uid, family, now))
  {
    assert w.db.nextJti !in w.log.refresh;
  }

  lemma MintKeepsFamilies(w: World, uid: UserId, family: nat, now: Instant)
    requires FamiliesHold(w.log) && uid in w.db.accounts && family < |w.log.families|
    requires w.log.families[family] == Family(uid, w.db.accounts[uid].tokenVersion)
    ensures FamiliesHold(Mint(w, uid, family, now).log)
  {
  }

  lemma MintKeepsTokens(w: World, uid: UserId, family: nat, now: Instant)
    requires TokensHold(w) && uid in w.db.accounts && family < |w.log.families|
    requires w.log.families[family] == Family(uid, w.db.accounts[uid].tokenVersion)
    ensures TokensHold(Mint(w, uid, family, now)) && Later(w, Mint(w, uid, family, now))
  {
    MintIsLater(w, uid, family, now);
    MintKeepsFamilies(w, uid, family, now);
  }

  lemma MintNewKeepsTokens(w: World, uid: UserId, now: Instant)
    requires TokensHold(w) && uid in w.db.accounts
    ensures TokensHold(MintNew(w, uid, now)) && Later(w, MintNew(w, uid, now))
  {
    var families := w.log.families + [Family(uid, w.db.accounts[uid].tokenVersion)];
    MintKeepsTokens(w.(log := w.log.(families := families)), uid, |w.log.families|, now);
  }

  lemma LoginKeepsTokens(w: World, e: Event)
    requires TokensHold(w) && e.action.Login?
    ensures TokensHold(Step(w, e)) && Later(w, Step(w, e))
  {
    var uid := e.action.uid;
    if e.action.passwordOk && Usable(w.db, uid) {
      MintNewKeepsTokens(w.(log := w.log.(logins := w.log.logins + 1)), uid, e.at);
    }
  }

  lemma RotationKeepsTokens(w: World, token: Claims, now: Instant)
    requires TokensHold(w) && RefreshAccepted(w, token, now)
    ensures TokensHold(Refreshed(w, token, now)) && Later(w, Refreshed(w, token, now))
  {
    var jti := token.jti.value;
    var spent := World(w.db.(blacklist := w.db.blacklist[jti := token.exp]),
                       w.log.(accepted := w.log.accepted + [jti]));
    MintKeepsTokens(spent, token.userId, w.log.family[jti], now);
  }

  lemma RefreshKeepsTokens(w: World, e: Event)
    requires TokensHold(w) && e.action.Refresh?
    ensures TokensHold(Step(w, e)) && Later(w, Step(w, e))
  {
    MintingSteps(w, e);
    if RefreshAccepted(w, e.action.token, e.at) {
      RotationKeepsTokens(w, e.action.token, e.at);
    }
  }

  /** The step touched neither accounts nor refresh tokens. */
  ghost predicate Quiet(w: World, w': World) {
    && w'.db.accounts == w.db.accounts && w'.db.nextUser == w.db.nextUser && w'.db.nextJti == w.db.nextJti
    && w'.log.refresh == w.log.refresh && w'.log.families == w.log.families && w'.log.family == w.log.family
    && w'.log.accepted == w.log.accepted
    && (forall t :: t in w'.log.others && t !in w.log.others ==> !t.kind.RefreshToken?)
  }

  lemma QuietKeepsTokens(w: World, w': World)
    requires TokensHold(w) && Quiet(w, w')
    ensures TokensHold(w') && Later(w, w')
  {
  }

  lemma QuietStepKeepsTokens(w: World, e: Event)
    requires TokensHold(w) && (e.action.RequestReset? || e.action.Prune? || e.action.StartQr?)
    ensures TokensHold(Step(w, e)) && Later(w, Step(w, e))
  {
    QuietKeepsTokens(w, Step(w, e));
  }

  lemma AccountKeepsTokens(w: World, e: Event)
    requires TokensHold(w) && (e.action.Register? || e.action.SetActive?)
    ensures TokensHold(Step(w, e)) && Later(w, Step(w, e))
  {
  }

  lemma PasswordKeepsTokens(w: World, uid: UserId)
    requires TokensHold(w)
    ensures TokensHold(PasswordChanged(w, uid)) && Later(w, PasswordChanged(w, uid))
  {
  }

  lemma PasswordStepKeepsTokens(w: World, e: Event)
    requires TokensHold(w) && (e.action.ChangePassword? || e.action.ConfirmReset?)
    ensures TokensHold(Step(w, e)) && Later(w, Step(w, e))
  {
    if e.action.ChangePassword? {
      PasswordKeepsTokens(w, e.action.uid);
    } else if Decode(w.log, e.action.token, ResetToken, e.at).Some? {
      PasswordKeepsTokens(w, e.action.token.userId);
    }
  }

  lemma RedemptionKeepsTokens(w: World, sid: SessionId, now: Instant)
    requires TokensHold(w) && Redeems(w, sid, now)
    ensures TokensHold(QrPolled(w, sid, now)) && Later(w, QrPolled(w, sid, now))
  {
    var uid := w.db.sessions[sid].userId.value;
    var r := SessionSet(w, sid, w.db.sessions[sid].(status := Consumed));
    MintNewKeepsTokens(r.(log := r.log.(redemptions := r.log.redemptions + [Redemption(sid, uid, now)])), uid, now);
  }

  lemma UnredeemedKeepsTokens(w: World, e: Event)
    requires TokensHold(w) && e.action.PollQr? && !Redeems(w, e.action.sid, e.at)
    ensures TokensHold(Step(w, e)) && Later(w, Step(w, e))
  {
    QuietKeepsTokens(w, Step(w, e));
  }

  lemma PollKeepsTokens(w: World, e: Event)
    requires TokensHold(w) && e.action.PollQr?
    ensures TokensHold(Step(w, e)) && Later(w, Step(w, e))
  {
    MintingSteps(w, e);
    if Redeems(w, e.action.sid, e.at) {
      RedemptionKeepsTokens(w, e.action.sid, e.at);
    } else {
      UnredeemedKeepsTokens(w, e);
    }
  }

  lemma TelegramKeepsTokens(w: World, tg: TelegramId)
    requires TokensHold(w)
    ensures TokensHold(WithTelegramUser(w, tg)) && Later(w, WithTelegramUser(w, tg))
  {
  }

  lemma QuietAfterTelegram(w: World, tg: TelegramId, w': World)
    requires TokensHold(w) && Quiet(WithTelegramUser(w, tg), w')
    ensures TokensHold(w') && Later(w, w')
  {
    TelegramKeepsTokens(w, tg);
    QuietKeepsTokens(WithTelegramUser(w, tg), w');
  }

  lemma ApprovalKeepsTokens(w: World, e: Event)
    requires TokensHold(w) && e.action.ApproveQr?
    ensures TokensHold(Step(w, e)) && Later(w, Step(w, e))
  {
    var sid, tg := e.action.sid, e.action.tg;
    if e.action.trusted && ValidTelegramId(tg) && sid in w.db.sessions
       && !TimedOut(w.db.sessions[sid], e.at) && w.db.sessions[sid].status.Pending? {
      QuietAfterTelegram(w, tg, Step(w, e));
    } else {
      QuietKeepsTokens(w, Step(w, e));
    }
  }

  lemma BotLinkKeepsTokens(w: World, e: Event)
    requires TokensHold(w) && e.action.BotLink?
    ensures TokensHold(Step(w, e)) && Later(w, Step(w, e))
  {
    if e.action.trusted && ValidTelegramId(e.action.tg) {
      QuietAfterTelegram(w, e.action.tg, Step(w, e));
    } else {
      QuietKeepsTokens(w, Step(w, e));
    }
  }

  lemma StepKeepsTokens(w: World, e: Event)
    requires TokensHold(w)
    ensures TokensHold(Step(w, e)) && Later(w, Step(w, e))
  {
    match e.action
    case Register => AccountKeepsTokens(w, e);
    case SetActive(_, _) => AccountKeepsTokens(w, e);
    case Login(_, _) => LoginKeepsTokens(w, e);
    case Refresh(_) => RefreshKeepsTokens(w, e);
    case ChangePassword(_) => PasswordStepKeepsTokens(w, e);
    case ConfirmReset(_) => PasswordStepKeepsTokens(w, e);
    case RequestReset(_) => QuietStepKeepsTokens(w, e);
    case Prune => QuietStepKeepsTokens(w, e);
    case StartQr => QuietStepKeepsTokens(w, e);
    case PollQr(_) => PollKeepsTokens(w, e);
    case ApproveQr(_, _, _) => ApprovalKeepsTokens(w, e);
    case BotLink(_, _) => BotLinkKeepsTokens(w, e);
  }

  lemma {:induction false} RunKeepsTokens(w: World, events: seq<Event>)
    requires TokensHold(w)
    ensures TokensHold(Run(w, events)) && Later(w, Run(w, events))
  {
    if |events| > 0 {
      RunKeepsTokens(w, events[..|events| - 1]);
      StepKeepsTokens(Run(w, events[..|events| - 1]), events[|events| - 1]);
    }
  }

  // ---------- a password change ends every earlier family ----------

  /** The refresh token `jti`, presented at `now`. */
  predicate Acceptable(w: World, jti: Jti, now: Instant) {
    jti in w.log.refresh && RefreshAccepted(w, w.log.refresh[jti], now)
  }

  /** The refresh token `jti` is from the same login as `older`, or is `older` itself. */
  predicate SameFamily(log: Log, jti: Jti, older: Jti) {
    jti in log.family && older in log.family && log.family[jti] == log.family[older]
  }

  /**
   Once the user's password has changed, no refresh token issued before, nor any token rotated from
   one, is acceptable in any later state.
   */
  lemma {:induction false} PasswordChangeEndsFamilies(before: World, uid: UserId, events: seq<Event>, older: Jti,
                                                      jti: Jti, now: Instant)
    requires TokensHold(before) && older in before.log.refresh && before.log.refresh[older].userId == uid
    requires SameFamily(Run(PasswordChanged(before, uid), events).log, jti, older)
    ensures !Acceptable(Run(PasswordChanged(before, uid), events), jti, now)
  {
    var changed := PasswordChanged(before, uid);
    PasswordKeepsTokens(before, uid);
    RunKeepsTokens(changed, events);
    var after := Run(changed, events);
    assert after.log.refresh[jti].version == after.log.refresh[older].version < changed.db.accounts[uid].tokenVersion;
  }

  // ---------- every refresh token is spent at most once ----------

  /** The account is still at the version that the token `jti` carries. */
  predicate Current(w: World, jti: Jti) {
    && jti in w.log.refresh && w.log.refresh[jti].userId in w.db.accounts
    && w.log.refresh[jti].version == w.db.accounts[w.log.refresh[jti].userId].tokenVersion
  }

  /** The token `jti` is on the blacklist, or its second has gone by, or its account has moved on. */
  predicate Dead(w: World, jti: Jti, now: Instant) {
    && jti in w.log.refresh
    && ((jti in w.db.blacklist && w.db.blacklist[jti] == w.log.refresh[jti].exp)
        || w.log.refresh[jti].exp < Clock(now)
        || !Current(w, jti))
  }

  ghost predicate SpentAreDead(w: World, now: Instant) {
    && (forall j :: j in w.log.accepted ==> Dead(w, j, now))
    && (forall j :: j in w.db.blacklist ==> j in w.log.accepted && w.db.blacklist[j] == w.log.refresh[j].exp)
  }

  /** Issued tokens are the spent ones and one for each login or redemption. */
  ghost predicate CountsHold(log: Log) {
    && |log.refresh.Keys| == |log.accepted| + |log.families|
    && |log.families| == log.logins + |log.redemptions|
  }

  /** Within a family only one token has not been spent. */
  ghost predicate OneUnspentPerFamily(log: Log) {
    forall j, k :: SameFamily(log, j, k) && j !in log.accepted && k !in log.accepted ==> j == k
  }

  ghost predicate LogHolds(log: Log) {
    Distinct(log.accepted) && CountsHold(log) && OneUnspentPerFamily(log)
  }

  ghost predicate Safe(w: World, now: Instant) {
    TokensHold(w) && SpentAreDead(w, now) && LogHolds(w.log)
  }

  /** Every row that a prune deletes is of a token that the clock already rejects or whose account has moved on. */
  ghost predicate HarmlessPrune(w: World, now: Instant) {
    forall j :: j in w.db.blacklist && Prunable(w.db.blacklist[j], now) && Current(w, j) ==>
      w.db.blacklist[j] < Clock(now)
  }

  /** The part of it that can be checked on the blacklist alone, whose rows name no account. */
  predicate SafePrune(db: Db, now: Instant) {
    forall j :: j in db.blacklist && Prunable(db.blacklist[j], now) ==> db.blacklist[j] < Clock(now)
  }

  lemma SafePruneIsHarmless(w: World, now: Instant)
    requires SafePrune(w.db, now)
    ensures HarmlessPrune(w, now)
  {
  }

  lemma WholeSecondPruneIsSafe(db: Db, now: Instant)
    requires now % SECOND == 0
    ensures SafePrune(db, now)
  {
  }

  lemma SpentStayDead(w: World, now: Instant, later: Instant)
    requires SpentAreDead(w, now) && now <= later
    ensures SpentAreDead(w, later)
  {
  }

  /** A token that is accepted has not been spent. */
  lemma AcceptedIsUnspent(w: World, token: Claims, now: Instant)
    requires TokensHold(w) && SpentAreDead(w, now) && RefreshAccepted(w, token, now)
    ensures token.jti.value in w.log.refresh && w.log.refresh[token.jti.value] == token
    ensures token.jti.value !in w.log.accepted
  {
  }

  lemma NewFamilyStaysAlone(w: World, uid: UserId, now: Instant)
    requires TokensHold(w) && uid in w.db.accounts && OneUnspentPerFamily(w.log)
    ensures OneUnspentPerFamily(MintNew(w, uid, now).log)
  {
    var log' := MintNew(w, uid, now).log;
    forall j, k | SameFamily(log', j, k) && j !in log'.accepted && k !in log'.accepted
      ensures j == k
    {
      if j != w.db.nextJti && k != w.db.nextJti {
        assert SameFamily(w.log, j, k);
      }
    }
  }

  lemma NewTokenCounts(w: World, uid: UserId, now: Instant)
    requires TokensHold(w) && uid in w.db.accounts
    ensures |MintNew(w, uid, now).log.refresh.Keys| == |w.log.refresh.Keys| + 1
  {
    assert MintNew(w, uid, now).log.refresh.Keys == w.log.refresh.Keys + {w.db.nextJti};
  }

  /** A login or redemption adds a family whose one token is unspent. */
  lemma NewFamilyKeepsLog(w: World, uid: UserId, now: Instant)
    requires TokensHold(w) && uid in w.db.accounts
    requires Distinct(w.log.accepted) && OneUnspentPerFamily(w.log)
    requires |w.log.refresh.Keys| == |w.log.accepted| + |w.log.families|
    requires |w.log.families| + 1 == w.log.logins + |w.log.redemptions|
    ensures LogHolds(MintNew(w, uid, now).log)
  {
    NewFamilyStaysAlone(w, uid, now);
    NewTokenCounts(w, uid, now);
  }

  lemma RotationKeepsLog(w: World, token: Claims, now: Instant)
    requires TokensHold(w) && SpentAreDead(w, now) && LogHolds(w.log) && RefreshAccepted(w, token, now)
    ensures LogHolds(Refreshed(w, token, now).log)
  {
    AcceptedIsUnspent(w, token, now);
    var jti := token.jti.value;
    var log' := Refreshed(w, token, now).log;
    assert log'.refresh.Keys == w.log.refresh.Keys + {w.db.nextJti};
    assert forall j :: j in log'.accepted <==> j in w.log.accepted || j == jti;
    forall j, k | SameFamily(log', j, k) && j !in log'.accepted && k !in log'.accepted
      ensures j == k
    {
      if j != w.db.nextJti {
        assert SameFamily(w.log, j, if k == w.db.nextJti then jti else k);
      } else if k != w.db.nextJti {
        assert SameFamily(w.log, jti, k);
      }
    }
  }

  // ---------- the blacklist, step by step ----------

  lemma RotationKeepsSpentDead(w: World, token: Claims, now: Instant)
    requires TokensHold(w) && SpentAreDead(w, now) && RefreshAccepted(w, token, now)
    ensures SpentAreDead(Refreshed(w, token, now), now)
  {
    AcceptedIsUnspent(w, token, now);
    var jti := token.jti.value;
    var w' := Refreshed(w, token, now);
    RotationKeepsTokens(w, token, now);
    forall j | j in w'.log.accepted ensures Dead(w', j, now) {
      if j != jti {
        assert j in w.log.accepted && Dead(w, j, now);
      }
    }
  }

  lemma PruneKeepsSpentDead(w: World, now: Instant)
    requires SpentAreDead(w, now) && HarmlessPrune(w, now)
    ensures SpentAreDead(Pruned(w, now), now)
  {
    var w' := Pruned(w, now);
    forall j | j in w'.log.accepted ensures Dead(w', j, now) {
      assert Dead(w, j, now) && Current(w, j) == Current(w', j);
    }
  }

  /** Versions only grow, so that what has moved on stays so. */
  lemma LaterKeepsSpentDead(w: World, w': World, now: Instant)
    requires WellIssued(w) && SpentAreDead(w, now) && Later(w, w')
    requires w'.log.accepted == w.log.accepted && w'.db.blacklist == w.db.blacklist
    ensures SpentAreDead(w', now)
  {
    forall j | j in w'.log.accepted ensures Dead(w', j, now) {
      assert Dead(w, j, now);
    }
  }

  /** The step hands out a refresh token. */
  predicate Mints(w: World, e: Event) {
    || (e.action.Login? && e.action.passwordOk && Usable(w.db, e.action.uid))
    || (e.action.Refresh? && RefreshAccepted(w, e.action.token, e.at))
    || (e.action.PollQr? && Redeems(w, e.action.sid, e.at))
  }

  /** Nothing was handed out, spent or logged in between the two. */
  ghost predicate SameTokens(w: World, w': World) {
    && w'.log.refresh == w.log.refresh && w'.log.accepted == w.log.accepted && w'.log.family == w.log.family
    && w'.log.families == w.log.families && w'.log.logins == w.log.logins && w'.log.redemptions == w.log.redemptions
  }

  lemma QrStepsLeaveLog(w: World, e: Event)
    requires !Mints(w, e) && (e.action.StartQr? || e.action.PollQr? || e.action.ApproveQr? || e.action.BotLink?)
    ensures SameTokens(w, Step(w, e)) && Step(w, e).db.blacklist == w.db.blacklist
  {
  }

  lemma OtherStepsLeaveLog(w: World, e: Event)
    requires !Mints(w, e)
    ensures SameTokens(w, Step(w, e))
    ensures !e.action.Prune? ==> Step(w, e).db.blacklist == w.db.blacklist
  {
    if e.action.StartQr? || e.action.PollQr? || e.action.ApproveQr? || e.action.BotLink? {
      QrStepsLeaveLog(w, e);
    }
  }

  /** Of all the steps only a refresh and a prune touch the blacklist or the list of spent tokens. */
  lemma OnlyTwoTouchBlacklist(w: World, e: Event)
    requires !e.action.Prune? && !(e.action.Refresh? && Mints(w, e))
    ensures Step(w, e).log.accepted == w.log.accepted && Step(w, e).db.blacklist == w.db.blacklist
  {
    if !Mints(w, e) {
      OtherStepsLeaveLog(w, e);
    }
  }

  lemma StepKeepsSpentDead(w: World, e: Event)
    requires TokensHold(w) && SpentAreDead(w, e.at)
    requires e.action.Prune? ==> HarmlessPrune(w, e.at)
    ensures SpentAreDead(Step(w, e), e.at)
  {
    if e.action.Prune? {
      PruneKeepsSpentDead(w, e.at);
    } else if e.action.Refresh? && Mints(w, e) {
      RotationKeepsSpentDead(w, e.action.token, e.at);
    } else {
      StepKeepsTokens(w, e);
      OnlyTwoTouchBlacklist(w, e);
      LaterKeepsSpentDead(w, Step(w, e), e.at);
    }
  }

  // ---------- the log, step by step ----------

  /** The log's counters of logins and redemptions have no bearing on the tokens. */
  lemma CountingKeepsTokens(w: World, counted: World)
    requires TokensHold(w) && Quiet(w, counted) && OneUnspentPerFamily(w.log)
    ensures TokensHold(counted) && OneUnspentPerFamily(counted.log)
  {
    QuietKeepsTokens(w, counted);
    forall j, k | SameFamily(counted.log, j, k) ensures SameFamily(w.log, j, k) {
    }
  }

  /** A login or a redemption, once it is counted, may begin a family. */
  lemma CountedFamilyKeepsLog(w: World, counted: World, uid: UserId, now: Instant)
    requires TokensHold(w) && LogHolds(w.log) && Quiet(w, counted) && uid in w.db.accounts
    requires counted.log.logins + |counted.log.redemptions| == w.log.logins + |w.log.redemptions| + 1
    ensures LogHolds(MintNew(counted, uid, now).log)
  {
    CountingKeepsTokens(w, counted);
    NewFamilyKeepsLog(counted, uid, now);
  }

  lemma NewLoginKeepsLog(w: World, uid: UserId, now: Instant)
    requires TokensHold(w) && LogHolds(w.log) && Usable(w.db, uid)
    ensures LogHolds(LoggedIn(w, uid, true, now).log)
  {
    var counted := w.(log := w.log.(logins := w.log.logins + 1));
    CountedFamilyKeepsLog(w, counted, uid, now);
    assert LoggedIn(w, uid, true, now) == MintNew(counted, uid, now);
  }

  lemma LoginKeepsLog(w: World, e: Event)
    requires TokensHold(w) && LogHolds(w.log) && e.action.Login? && Mints(w, e)
    ensures LogHolds(Step(w, e).log)
  {
    MintingSteps(w, e);
    NewLoginKeepsLog(w, e.action.uid, e.at);
  }

  lemma RefreshKeepsLog(w: World, e: Event)
    requires TokensHold(w) && SpentAreDead(w, e.at) && LogHolds(w.log) && e.action.Refresh? && Mints(w, e)
    ensures LogHolds(Step(w, e).log)
  {
    MintingSteps(w, e);
    RotationKeepsLog(w, e.action.token, e.at);
  }

  lemma RedemptionKeepsLog(w: World, sid: SessionId, now: Instant)
    requires TokensHold(w) && LogHolds(w.log) && Redeems(w, sid, now)
    ensures LogHolds(QrPolled(w, sid, now).log)
  {
    var uid := w.db.sessions[sid].userId.value;
    var r := SessionSet(w, sid, w.db.sessions[sid].(status := Consumed));
    var s := r.(log := r.log.(redemptions := r.log.redemptions + [Redemption(sid, uid, now)]));
    CountedFamilyKeepsLog(w, s, uid, now);
    assert QrPolled(w, sid, now) == MintNew(s, uid, now);
  }

  lemma PollKeepsLog(w: World, e: Event)
    requires TokensHold(w) && LogHolds(w.log) && e.action.PollQr? && Mints(w, e)
    ensures LogHolds(Step(w, e).log)
  {
    MintingSteps(w, e);
    RedemptionKeepsLog(w, e.action.sid, e.at);
  }

  lemma OtherStepsKeepLog(w: World, e: Event)
    requires LogHolds(w.log) && !Mints(w, e)
    ensures LogHolds(Step(w, e).log)
  {
    OtherStepsLeaveLog(w, e);
    forall j, k | SameFamily(Step(w, e).log, j, k) ensures SameFamily(w.log, j, k) {
    }
  }

  lemma StepKeepsLog(w: World, e: Event)
    requires TokensHold(w) && SpentAreDead(w, e.at) && LogHolds(w.log)
    ensures LogHolds(Step(w, e).log)
  {
    if !Mints(w, e) {
      OtherStepsKeepLog(w, e);
    } else if e.action.Login? {
      LoginKeepsLog(w, e);
    } else if e.action.Refresh? {
      RefreshKeepsLog(w, e);
    } else {
      PollKeepsLog(w, e);
    }
  }

  // ---------- every run ----------

  /** Every prune of the run is harmless when it happens. */
  ghost predicate HarmlessPrunes(w: World, events: seq<Event>) {
    |events| > 0 ==>
      var init, e := events[..|events| - 1], events[|events| - 1];
      HarmlessPrunes(w, init) && (e.action.Prune? ==> HarmlessPrune(Run(w, init), e.at))
  }

  /** A run whose prunes all fall on whole seconds prunes harmlessly. */
  lemma {:induction false} WholeSecondPrunesAreHarmless(w: World, events: seq<Event>)
    requires forall i :: 0 <= i < |events| && events[i].action.Prune? ==> events[i].at % SECOND == 0
    ensures HarmlessPrunes(w, events)
  {
    if |events| > 0 {
      var init, e := events[..|events| - 1], events[|events| - 1];
      WholeSecondPrunesAreHarmless(w, init);
      if e.action.Prune? {
        WholeSecondPruneIsSafe(Run(w, init).db, e.at);
        SafePruneIsHarmless(Run(w, init), e.at);
      }
    }
  }

  lemma {:induction false} RunKeepsSafe(w: World, events: seq<Event>, start: Instant, now: Instant)
    requires Safe(w, start) && Chronological(events, start, now) && HarmlessPrunes(w, events)
    ensures Safe(Run(w, events), now)
  {
    if |events| == 0 {
      SpentStayDead(w, start, now);
    } else {
      var init, e := events[..|events| - 1], events[|events| - 1];
      RunKeepsSafe(w, init, start, e.at);
      var w1 := Run(w, init);
      StepKeepsTokens(w1, e);
      StepKeepsSpentDead(w1, e);
      StepKeepsLog(w1, e);
      SpentStayDead(Step(w1, e), e.at, now);
    }
  }

  lemma EmptyIsSafe(now: Instant)
    ensures Safe(EMPTY, now)
  {
    assert EMPTY.log.refresh.Keys == {};
  }

  /**
   In every run `/refresh` accepts each jti at most once, and at its end no jti it has accepted is
   acceptable at that instant or later.
   */
  lemma {:induction false} RefreshOnlyOnce(events: seq<Event>, start: Instant, now: Instant, jti: Jti, t: Instant)
    requires Chronological(events, start, now) && HarmlessPrunes(EMPTY, events) && now <= t
    ensures Distinct(Run(EMPTY, events).log.accepted)
    ensures jti in Run(EMPTY, events).log.accepted ==> !Acceptable(Run(EMPTY, events), jti, t)
  {
    EmptyIsSafe(start);
    RunKeepsSafe(EMPTY, events, start, now);
    var w := Run(EMPTY, events);
    SpentStayDead(w, now, t);
    if jti in w.log.accepted && Acceptable(w, jti, t) {
      AcceptedIsUnspent(w, w.log.refresh[jti], t);
    }
  }

  ghost function Elements(s: seq<Jti>): set<Jti> {
    set x | x in s
  }

  lemma {:induction false} DistinctCount(s: seq<Jti>)
    requires Distinct(s)
    ensures |Elements(s)| == |s|
  {
    if |s| == 0 {
    } else {
      var init, last := s[..|s| - 1], s[|s| - 1];
      DistinctCount(init);
      assert s == init + [last] && last !in init;
      assert Elements(s) == Elements(init) + {last};
    }
  }

  lemma {:induction false} SubsetCount(a: set<Jti>, b: set<Jti>)
    requires a <= b
    ensures |a| <= |b|
  {
    if a != {} {
      var x :| x in a;
      SubsetCount(a - {x}, b - {x});
    }
  }

  ghost function LiveTokens(w: World, now: Instant): set<Jti> {
    set j | j in w.log.refresh && Acceptable(w, j, now)
  }

  lemma LiveAreUnspent(w: World, now: Instant, j: Jti)
    requires Safe(w, now) && j in LiveTokens(w, now)
    ensures j in w.log.refresh && j in w.log.family && j !in w.log.accepted
  {
    AcceptedIsUnspent(w, w.log.refresh[j], now);
  }

  lemma OneLivePerFamily(w: World, now: Instant, j: Jti, k: Jti)
    requires Safe(w, now) && j in LiveTokens(w, now) && k in LiveTokens(w, now) && SameFamily(w.log, j, k)
    ensures j == k
  {
    LiveAreUnspent(w, now, j);
    LiveAreUnspent(w, now, k);
  }

  lemma LiveTokensCount(w: World, now: Instant)
    requires Safe(w, now)
    ensures |LiveTokens(w, now)| <= w.log.logins + |w.log.redemptions|
  {
    var spent, issued := Elements(w.log.accepted), w.log.refresh.Keys;
    forall j | j in LiveTokens(w, now) ensures j in issued - spent {
      LiveAreUnspent(w, now, j);
    }
    DistinctCount(w.log.accepted);
    assert spent <= issued;
    SubsetCount(LiveTokens(w, now), issued - spent);
    assert |issued - spent| == |issued| - |spent|;
  }

  lemma SafeBoundsLive(w: World, now: Instant, j: Jti, k: Jti)
    requires Safe(w, now)
    ensures |LiveTokens(w, now)| <= w.log.logins + |w.log.redemptions|
    ensures {j, k} <= LiveTokens(w, now) && SameFamily(w.log, j, k) ==> j == k
  {
    LiveTokensCount(w, now);
    if j in LiveTokens(w, now) && k in LiveTokens(w, now) && SameFamily(w.log, j, k) {
      OneLivePerFamily(w, now, j, k);
    }
  }

  /** Never more live refresh tokens than logins and QR redemptions, and never two from the same one. */
  lemma {:induction false} LiveTokensBounded(events: seq<Event>, start: Instant, now: Instant, j: Jti, k: Jti)
    requires Chronological(events, start, now) && HarmlessPrunes(EMPTY, events)
    ensures |LiveTokens(Run(EMPTY, events), now)| <=
            Run(EMPTY, events).log.logins + |Run(EMPTY, events).log.redemptions|
    ensures {j, k} <= LiveTokens(Run(EMPTY, events), now) && SameFamily(Run(EMPTY, events).log, j, k) ==> j == k
  {
    EmptyIsSafe(start);
    RunKeepsSafe(EMPTY, events, start, now);
    SafeBoundsLive(Run(EMPTY, events), now, j, k);
  }
}
