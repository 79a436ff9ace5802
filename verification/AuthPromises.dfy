/** What a token that was handed out is good for: whose it is, how long it lasts, and what ends it sooner. */
module AuthPromises {
  import opened Wrappers
  import opened Auth
  import opened AuthSafety

  // ---------- whose the tokens are ----------

  /** Somebody logged in, or redeemed a session, as `uid` at that version. */
  predicate CameIn(log: Log, uid: UserId, version: nat) {
    Family(uid, version) in log.families
  }

  predicate HadVersion(db: Db, uid: UserId, version: nat) {
    uid in db.accounts && version <= db.accounts[uid].tokenVersion
  }

  /** A token without a `jti` is an access token of somebody who came in, or a reset token of an account. */
  predicate RightlyIssued(w: World, t: Claims) {
    && t.jti.None? && HadVersion(w.db, t.userId, t.version)
    && (t.kind.ResetToken? || (t.kind.AccessToken? && CameIn(w.log, t.userId, t.version)))
  }

  ghost predicate AllRightlyIssued(w: World) {
    && (forall t :: t in w.log.others ==> RightlyIssued(w, t))
    && (forall f :: f in w.log.families ==> HadVersion(w.db, f.userId, f.version))
  }

  /** Versions only grow, and whoever came in stays on record. */
  ghost predicate RecordsGrow(w: World, w': World) {
    && (forall uid, version: nat :: HadVersion(w.db, uid, version) ==> HadVersion(w'.db, uid, version))
    && (forall f :: f in w.log.families ==> f in w'.log.families)
  }

  lemma GrowingKeepsIssued(w: World, w': World)
    requires AllRightlyIssued(w) && RecordsGrow(w, w')
    requires forall t :: t in w'.log.others && t !in w.log.others ==> RightlyIssued(w', t)
    requires forall f :: f in w'.log.families && f !in w.log.families ==> HadVersion(w'.db, f.userId, f.version)
    ensures AllRightlyIssued(w')
  {
    forall t | t in w'.log.others ensures RightlyIssued(w', t) {
      if t in w.log.others {
        assert RightlyIssued(w, t);
      }
    }
    forall f | f in w'.log.families ensures HadVersion(w'.db, f.userId, f.version) {
      if f in w.log.families {
        assert HadVersion(w.db, f.userId, f.version);
      }
    }
  }

  lemma MintIsRightlyIssued(w: World, uid: UserId, family: nat, now: Instant)
    requires AllRightlyIssued(w) && uid in w.db.accounts && CameIn(w.log, uid, w.db.accounts[uid].tokenVersion)
    ensures AllRightlyIssued(Mint(w, uid, family, now))
  {
    GrowingKeepsIssued(w, Mint(w, uid, family, now));
  }

  lemma MintNewIsRightlyIssued(w: World, uid: UserId, now: Instant)
    requires AllRightlyIssued(w) && uid in w.db.accounts
    ensures AllRightlyIssued(MintNew(w, uid, now))
  {
    var families := w.log.families + [Family(uid, w.db.accounts[uid].tokenVersion)];
    var w1 := w.(log := w.log.(families := families));
    assert families[|w.log.families|] == Family(uid, w.db.accounts[uid].tokenVersion);
    GrowingKeepsIssued(w, w1);
    MintIsRightlyIssued(w1, uid, |w.log.families|, now);
  }

  lemma LoginIsRightlyIssued(w: World, uid: UserId, passwordOk: bool, now: Instant)
    requires AllRightlyIssued(w)
    ensures AllRightlyIssued(LoggedIn(w, uid, passwordOk, now))
  {
    if passwordOk && Usable(w.db, uid) {
      var counted := w.(log := w.log.(logins := w.log.logins + 1));
      GrowingKeepsIssued(w, counted);
      MintNewIsRightlyIssued(counted, uid, now);
    }
  }

  lemma RotationIsRightlyIssued(w: World, token: Claims, now: Instant)
    requires TokensHold(w) && AllRightlyIssued(w)
    ensures AllRightlyIssued(Refreshed(w, token, now))
  {
    if RefreshAccepted(w, token, now) {
      var jti := token.jti.value;
      var spent := World(w.db.(blacklist := w.db.blacklist[jti := token.exp]),
                         w.log.(accepted := w.log.accepted + [jti]));
      GrowingKeepsIssued(w, spent);
      assert w.log.families[w.log.family[jti]] == Family(token.userId, token.version);
      MintIsRightlyIssued(spent, token.userId, w.log.family[jti], now);
    }
  }

  lemma PollIsRightlyIssued(w: World, sid: SessionId, now: Instant)
    requires AllRightlyIssued(w)
    ensures AllRightlyIssued(QrPolled(w, sid, now))
  {
    if Redeems(w, sid, now) {
      var uid := w.db.sessions[sid].userId.value;
      var r := SessionSet(w, sid, w.db.sessions[sid].(status := Consumed));
      var s := r.(log := r.log.(redemptions := r.log.redemptions + [Redemption(sid, uid, now)]));
      GrowingKeepsIssued(w, s);
      MintNewIsRightlyIssued(s, uid, now);
      assert QrPolled(w, sid, now) == MintNew(s, uid, now);
    } else {
      GrowingKeepsIssued(w, QrPolled(w, sid, now));
    }
  }

  lemma AccountStepIsRightlyIssued(w: World, e: Event)
    requires TokensHold(w) && AllRightlyIssued(w)
    requires e.action.Register? || e.action.SetActive? || e.action.ChangePassword? || e.action.ConfirmReset?
    ensures AllRightlyIssued(Step(w, e))
  {
    GrowingKeepsIssued(w, Step(w, e));
  }

  lemma QuietStepIsRightlyIssued(w: World, e: Event)
    requires TokensHold(w) && AllRightlyIssued(w) && (e.action.RequestReset? || e.action.Prune? || e.action.StartQr?)
    ensures AllRightlyIssued(Step(w, e))
  {
    GrowingKeepsIssued(w, Step(w, e));
  }

  lemma TelegramIsRightlyIssued(w: World, tg: TelegramId)
    requires TokensHold(w) && AllRightlyIssued(w)
    ensures AllRightlyIssued(WithTelegramUser(w, tg))
  {
    GrowingKeepsIssued(w, WithTelegramUser(w, tg));
  }

  lemma SessionIsRightlyIssued(w: World, w': World)
    requires AllRightlyIssued(w) && w'.db.accounts == w.db.accounts
    requires w'.log.others == w.log.others && w'.log.families == w.log.families
    ensures AllRightlyIssued(w')
  {
    GrowingKeepsIssued(w, w');
  }

  lemma ApprovalIsRightlyIssued(w: World, sid: SessionId, tg: TelegramId, now: Instant)
    requires TokensHold(w) && AllRightlyIssued(w)
    ensures AllRightlyIssued(QrApproved(w, sid, tg, now))
  {
    TelegramIsRightlyIssued(w, tg);
    if QrApproved(w, sid, tg, now).db.accounts == w.db.accounts {
      SessionIsRightlyIssued(w, QrApproved(w, sid, tg, now));
    } else {
      SessionIsRightlyIssued(WithTelegramUser(w, tg), QrApproved(w, sid, tg, now));
    }
  }

  lemma LinkIsRightlyIssued(w: World, tg: TelegramId, now: Instant)
    requires TokensHold(w) && AllRightlyIssued(w)
    ensures AllRightlyIssued(BotLinked(w, tg, now))
  {
    TelegramIsRightlyIssued(w, tg);
    if ValidTelegramId(tg) {
      SessionIsRightlyIssued(WithTelegramUser(w, tg), BotLinked(w, tg, now));
    }
  }

  lemma StepIsRightlyIssued(w: World, e: Event)
    requires TokensHold(w) && AllRightlyIssued(w)
    ensures AllRightlyIssued(Step(w, e))
  {
    match e.action
    case Login(uid, passwordOk) => LoginIsRightlyIssued(w, uid, passwordOk, e.at);
    case Refresh(token) => RotationIsRightlyIssued(w, token, e.at);
    case PollQr(sid) => PollIsRightlyIssued(w, sid, e.at);
    case Register | SetActive(_, _) | ChangePassword(_) | ConfirmReset(_) => AccountStepIsRightlyIssued(w, e);
    case RequestReset(_) | Prune | StartQr => QuietStepIsRightlyIssued(w, e);
    case ApproveQr(sid, tg, trusted) => ApprovalIsRightlyIssued(w, sid, tg, e.at);
    case BotLink(tg, trusted) => LinkIsRightlyIssued(w, tg, e.at);
  }

  /**
   In every run each access token names an account in whose name somebody came in, at the version that the
   account had then, and each reset token an account at a version that it has had.
   */
  lemma {:induction false} RunIsRightlyIssued(w: World, events: seq<Event>)
    requires TokensHold(w) && AllRightlyIssued(w)
    ensures AllRightlyIssued(Run(w, events))
  {
    if |events| > 0 {
      var init := events[..|events| - 1];
      RunIsRightlyIssued(w, init);
      RunKeepsTokens(w, init);
      StepIsRightlyIssued(Run(w, init), events[|events| - 1]);
    }
  }

  /** Only tokens that were issued are ever blacklisted. */
  ghost predicate BlacklistIssued(w: World) {
    forall j :: j in w.db.blacklist ==> j in w.log.refresh
  }

  lemma EmptyIsRightlyIssued()
    ensures TokensHold(EMPTY) && AllRightlyIssued(EMPTY) && BlacklistIssued(EMPTY)
  {
    assert EMPTY.log.refresh.Keys == {};
  }

  // ---------- how long a refresh token lasts ----------

  /** The token `j` is neither spent nor outdated, and its account is active. */
  predicate Unspent(w: World, j: Jti) {
    && j in w.log.refresh && w.log.refresh[j].kind.RefreshToken? && w.log.refresh[j].jti == Some(j)
    && j !in w.db.blacklist && Usable(w.db, w.log.refresh[j].userId) && Current(w, j)
  }

  /** The request neither presents the token `j` nor changes the password or suspends the account of `uid`. */
  predicate Spares(a: Action, j: Jti, uid: UserId) {
    match a
    case Refresh(token) => token.jti != Some(j)
    case ChangePassword(u) => u != uid
    case ConfirmReset(token) => token.userId != uid
    case SetActive(u, active) => u != uid || active
    case _ => true
  }

  /** Handing out tokens changes no account. */
  lemma OnlyTwoTouchAccounts(w: World, e: Event)
    requires Mints(w, e)
    ensures Step(w, e).db.accounts == w.db.accounts
  {
    MintingSteps(w, e);
  }

  lemma MintingStepSpares(w: World, e: Event, j: Jti)
    requires TokensHold(w) && Unspent(w, j) && Spares(e.action, j, w.log.refresh[j].userId) && Mints(w, e)
    ensures Unspent(Step(w, e), j) && Step(w, e).log.refresh[j] == w.log.refresh[j]
  {
    MintingSteps(w, e);
    OnlyTwoTouchAccounts(w, e);
    StepKeepsTokens(w, e);
    if e.action.Refresh? {
      assert Step(w, e).db.blacklist == w.db.blacklist[e.action.token.jti.value := e.action.token.exp];
    } else {
      OnlyTwoTouchBlacklist(w, e);
    }
  }

  lemma OtherStepSpares(w: World, e: Event, j: Jti)
    requires TokensHold(w) && Unspent(w, j) && Spares(e.action, j, w.log.refresh[j].userId) && !Mints(w, e)
    ensures Unspent(Step(w, e), j) && Step(w, e).log.refresh[j] == w.log.refresh[j]
  {
    OtherStepsLeaveLog(w, e);
  }

  /** A token that is left alone stays as good as it was. */
  lemma {:induction false} UnspentStays(w: World, events: seq<Event>, j: Jti)
    requires TokensHold(w) && Unspent(w, j)
    requires forall i :: 0 <= i < |events| ==> Spares(events[i].action, j, w.log.refresh[j].userId)
    ensures Unspent(Run(w, events), j) && Run(w, events).log.refresh[j] == w.log.refresh[j]
  {
    if |events| > 0 {
      var init, e := events[..|events| - 1], events[|events| - 1];
      UnspentStays(w, init, j);
      RunKeepsTokens(w, init);
      if Mints(Run(w, init), e) {
        MintingStepSpares(Run(w, init), e, j);
      } else {
        OtherStepSpares(Run(w, init), e, j);
      }
    }
  }

  /** A row that is new on the blacklist is of a token that was issued. */
  lemma BlacklistGrowsByIssued(w: World, e: Event)
    requires TokensHold(w)
    ensures forall j :: j in Step(w, e).db.blacklist ==> j in w.db.blacklist || j in w.log.refresh
  {
    if e.action.Refresh? && Mints(w, e) {
      MintingSteps(w, e);
      assert Step(w, e).db.blacklist == w.db.blacklist[e.action.token.jti.value := e.action.token.exp];
    } else if e.action.Prune? {
      assert Step(w, e).db.blacklist.Keys <= w.db.blacklist.Keys;
    } else {
      OnlyTwoTouchBlacklist(w, e);
    }
  }

  lemma StepKeepsBlacklistIssued(w: World, e: Event)
    requires TokensHold(w) && BlacklistIssued(w)
    ensures BlacklistIssued(Step(w, e))
  {
    StepKeepsTokens(w, e);
    BlacklistGrowsByIssued(w, e);
  }

  lemma {:induction false} RunKeepsBlacklistIssued(w: World, events: seq<Event>)
    requires TokensHold(w) && BlacklistIssued(w)
    ensures BlacklistIssued(Run(w, events))
  {
    if |events| > 0 {
      var init := events[..|events| - 1];
      RunKeepsBlacklistIssued(w, init);
      RunKeepsTokens(w, init);
      StepKeepsBlacklistIssued(Run(w, init), events[|events| - 1]);
    }
  }

  /** Who comes in, or stays in, by a request that hands out tokens. */
  function Receiver(w: World, e: Event): UserId
    requires Mints(w, e)
  {
    match e.action
    case Login(uid, _) => uid
    case Refresh(token) => token.userId
    case PollQr(sid) => w.db.sessions[sid].userId.value
  }

  /** The refresh token that the request hands out: its receiver's, for fourteen days. */
  function HandedOut(w: World, e: Event): Claims
    requires Mints(w, e)
  {
    var uid := Receiver(w, e);
    Claims(RefreshToken, uid, w.db.accounts[uid].tokenVersion, Some(w.db.nextJti), e.at / SECOND + 14 * 24 * 3_600)
  }

  lemma MintedToken(w: World, e: Event)
    requires TokensHold(w) && BlacklistIssued(w) && Mints(w, e)
    ensures Unspent(Step(w, e), w.db.nextJti) && Step(w, e).log.refresh[w.db.nextJti] == HandedOut(w, e)
  {
    var j, uid := w.db.nextJti, Receiver(w, e);
    assert j !in w.log.refresh && j !in w.db.blacklist;
    MintingSteps(w, e);
    OnlyTwoTouchAccounts(w, e);
    assert Usable(w.db, uid);
  }

  lemma {:induction false} UnspentLasts(w: World, events: seq<Event>, j: Jti, t: Instant)
    requires TokensHold(w) && Unspent(w, j) && t / SECOND <= w.log.refresh[j].exp
    requires forall i :: 0 <= i < |events| ==> Spares(events[i].action, j, w.log.refresh[j].userId)
    ensures RefreshAccepted(Run(w, events), w.log.refresh[j], t)
  {
    UnspentStays(w, events, j);
  }

  /**
   Whoever comes in, or rotates a token, stays in: for fourteen days `/refresh` takes the refresh token handed out,
   whatever else happens, unless it is presented before or the account changes its password or is suspended.
   */
  lemma {:induction false} TokenLasts(w: World, e: Event, events: seq<Event>, t: Instant)
    requires TokensHold(w) && BlacklistIssued(w) && Mints(w, e)
    requires forall i :: 0 <= i < |events| ==> Spares(events[i].action, w.db.nextJti, Receiver(w, e))
    requires t / SECOND <= e.at / SECOND + 14 * 24 * 3_600
    ensures RefreshAccepted(Run(Step(w, e), events), HandedOut(w, e), t)
  {
    MintedToken(w, e);
    StepKeepsTokens(w, e);
    UnspentLasts(Step(w, e), events, w.db.nextJti, t);
  }

  // ---------- a new password ----------

  lemma OthersGrow(w: World, e: Event)
    ensures w.log.others <= Step(w, e).log.others
  {
  }

  lemma {:induction false} RunOthersGrow(w: World, events: seq<Event>)
    ensures w.log.others <= Run(w, events).log.others
  {
    if |events| > 0 {
      RunOthersGrow(w, events[..|events| - 1]);
      OthersGrow(Run(w, events[..|events| - 1]), events[|events| - 1]);
    }
  }

  /** The token that a reset sent to `uid` at `now` carries. */
  function ResetFor(w: World, uid: UserId, now: Instant): Claims
    requires uid in w.db.accounts
  {
    Claims(ResetToken, uid, w.db.accounts[uid].tokenVersion, None, now / SECOND + 30 * 60)
  }

  /** For thirty minutes, whatever else happens, the token changes the password of the account that asked for it. */
  lemma {:induction false} ResetWorks(w: World, uid: UserId, t0: Instant, events: seq<Event>, t: Instant)
    requires TokensHold(w) && uid in w.db.accounts && t / SECOND <= t0 / SECOND + 30 * 60
    ensures var before := Run(Step(w, Event(t0, RequestReset(uid))), events);
            var after := Step(before, Event(t, ConfirmReset(ResetFor(w, uid, t0))));
            && uid in before.db.accounts
            && after == before.(db := before.db.(accounts := before.db.accounts[uid :=
                 before.db.accounts[uid].(tokenVersion := before.db.accounts[uid].tokenVersion + 1)]))
  {
    var e := Event(t0, RequestReset(uid));
    var asked := Step(w, e);
    StepKeepsTokens(w, e);
    RunKeepsTokens(asked, events);
    RunOthersGrow(asked, events);
    assert ResetFor(w, uid, t0) in asked.log.others;
  }

  /** The request gives `uid` a new password. */
  predicate Repasswords(w: World, e: Event, uid: UserId) {
    || e.action == ChangePassword(uid)
    || (e.action.ConfirmReset? && e.action.token.userId == uid && Decode(w.log, e.action.token, ResetToken, e.at).Some?)
  }

  /**
   Once `uid` has a new password, by a change or by a reset, no refresh token issued before, nor any rotated from
   one, is acceptable in any later state.
   */
  lemma {:induction false} NewPasswordEndsFamilies(w: World, e: Event, uid: UserId, events: seq<Event>, older: Jti,
                                                   jti: Jti, now: Instant)
    requires TokensHold(w) && Repasswords(w, e, uid)
    requires older in w.log.refresh && w.log.refresh[older].userId == uid
    requires SameFamily(Run(Step(w, e), events).log, jti, older)
    ensures !Acceptable(Run(Step(w, e), events), jti, now)
  {
    assert Step(w, e) == PasswordChanged(w, uid);
    PasswordChangeEndsFamilies(w, uid, events, older, jti, now);
  }

  /** What the promises above ask of the tables holds in every run that begins with nothing. */
  lemma {:induction false} ReachableIsRightlyIssued(events: seq<Event>)
    ensures var w := Run(EMPTY, events); TokensHold(w) && AllRightlyIssued(w) && BlacklistIssued(w)
  {
    EmptyIsRightlyIssued();
    RunKeepsTokens(EMPTY, events);
    RunIsRightlyIssued(EMPTY, events);
    RunKeepsBlacklistIssued(EMPTY, events);
  }
}
