/** The authentication endpoints, as the program carries them out on its tables. */
module AuthService {
  import opened Wrappers
  import opened Auth

  datatype TokenPair = TokenPair(access: Claims, refresh: Claims)

  datatype LoginError = BadCredentials | InactiveUser

  datatype QrAnswer = Status(status: QrStatus) | Tokens(pair: TokenPair)

  datatype QrError = NotFound | UserUnavailable | Forbidden | BadTelegramId | NotPending(status: QrStatus)

  /** An access token for an hour and a refresh token for fourteen days, both of the user at that version. */
  predicate PairFor(pair: TokenPair, uid: UserId, version: nat, jti: Jti, now: Instant) {
    && pair.access == Claims(AccessToken, uid, version, None, now / SECOND + 60 * 60)
    && pair.refresh == Claims(RefreshToken, uid, version, Some(jti), now / SECOND + 14 * 24 * 60 * 60)
  }

  class Endpoints {
    var accounts: map<UserId, Account>
    var telegram: map<TelegramId, UserId>
    var blacklist: map<Jti, int>
    var sessions: map<SessionId, QrSession>
    var nextUser: UserId
    var nextJti: Jti
    var nextSession: SessionId
    ghost var log: Log

    ghost function Contents(): World
      reads this
    {
      World(Db(accounts, telegram, blacklist, sessions, nextUser, nextJti, nextSession), log)
    }

    constructor ()
      ensures Contents() == EMPTY
    {
      accounts, telegram, blacklist, sessions := map[], map[], map[], map[];
      nextUser, nextJti, nextSession := 0, 0, 0;
      log := EMPTY.log;
    }

    method Register() returns (uid: UserId)
      modifies this
      ensures Contents() == Registered(old(Contents()))
      ensures uid == old(nextUser) && accounts == old(accounts)[uid := Account(true, 0)]
    {
      uid := nextUser;
      accounts := accounts[uid := Account(true, 0)];
      nextUser := nextUser + 1;
    }

    method SetActive(uid: UserId, active: bool)
      modifies this
      ensures Contents() == ActiveSet(old(Contents()), uid, active)
      ensures accounts ==
              if uid in old(accounts) then old(accounts)[uid := Account(active, old(accounts)[uid].tokenVersion)]
              else old(accounts)
    {
      if uid in accounts {
        accounts := accounts[uid := accounts[uid].(isActive := active)];
      }
    }

    /** An access token and a refresh token with a jti of its own, both at the account's version. */
    method Issue(uid: UserId, ghost family: nat, now: Instant) returns (pair: TokenPair)
      requires uid in accounts
      modifies this
      ensures Contents() == Mint(old(Contents()), uid, family, now)
      ensures PairFor(pair, uid, accounts[uid].tokenVersion, old(nextJti), now) && accounts == old(accounts)
      ensures pair.access in log.others
      ensures old(nextJti) in log.refresh && log.refresh[old(nextJti)] == pair.refresh
    {
      var account := accounts[uid];
      pair := TokenPair(AccessFor(uid, account, now), RefreshFor(uid, account, nextJti, now));
      log := log.(refresh := log.refresh[nextJti := pair.refresh],
                  family := log.family[nextJti := family],
                  others := log.others + {pair.access});
      nextJti := nextJti + 1;
    }

    method Login(uid: UserId, passwordOk: bool, now: Instant) returns (r: Result<TokenPair, LoginError>)
      modifies this
      ensures Contents() == LoggedIn(old(Contents()), uid, passwordOk, now)
      ensures r.Ok? <==> passwordOk && uid in old(accounts) && old(accounts)[uid].isActive
      ensures r.Ok? ==> PairFor(r.value, uid, old(accounts)[uid].tokenVersion, old(nextJti), now)
      ensures r == Err(InactiveUser) <==> passwordOk && uid in old(accounts) && !old(accounts)[uid].isActive
    {
      if uid !in accounts || !passwordOk {
        return Err(BadCredentials);
      }
      if !accounts[uid].isActive {
        return Err(InactiveUser);
      }
      log := log.(logins := log.logins + 1, families := log.families + [Family(uid, accounts[uid].tokenVersion)]);
      var pair := Issue(uid, |log.families| - 1, now);
      return Ok(pair);
    }

    method IsTokenRevoked(jti: Jti) returns (revoked: bool)
      ensures revoked <==> jti in blacklist
      ensures revoked ==>
                forall token: Claims, t: Instant :: token.jti == Some(jti) ==> !RefreshAccepted(Contents(), token, t)
    {
      revoked := jti in blacklist;
    }

    /** Idempotent: a jti that is already on the blacklist keeps its row. */
    method RevokeToken(jti: Jti, exp: int)
      modifies this`blacklist
      ensures blacklist == if jti in old(blacklist) then old(blacklist) else old(blacklist)[jti := exp]
      ensures forall token: Claims, t: Instant :: token.jti == Some(jti) ==> !RefreshAccepted(Contents(), token, t)
    {
      var revoked := IsTokenRevoked(jti);
      if revoked {
        return;
      }
      blacklist := blacklist[jti := exp];
    }

    /** `genuine` stands for the signature check: the token is one that this program issued. */
    method Refresh(token: Claims, genuine: bool, now: Instant) returns (r: Option<TokenPair>)
      requires genuine == Genuine(log, token)
      modifies this
      ensures Contents() == Refreshed(old(Contents()), token, now)
      ensures r.Some? <==> RefreshAccepted(old(Contents()), token, now)
      ensures r.Some? ==> token.userId in old(accounts) && token.version == old(accounts)[token.userId].tokenVersion
      ensures r.Some? ==> PairFor(r.value, token.userId, token.version, old(nextJti), now)
      ensures r.Some? ==> token.jti.Some? && blacklist == old(blacklist)[token.jti.value := token.exp]
    {
      if !genuine || token.exp < Clock(now) || token.kind != RefreshToken || token.jti.None? {
        return None;
      }
      var jti := token.jti.value;
      var revoked := IsTokenRevoked(jti);
      if revoked {
        return None;
      }
      if token.userId !in accounts || !accounts[token.userId].isActive {
        return None;
      }
      if token.version != accounts[token.userId].tokenVersion {
        return None;
      }
      RevokeToken(jti, token.exp);
      ghost var family := if jti in log.family then log.family[jti] else 0;
      log := log.(accepted := log.accepted + [jti]);
      var pair := Issue(token.userId, family, now);
      return Some(pair);
    }

    /** A new password invalidates every outstanding refresh token of the account. */
    method UpdatePassword(uid: UserId) returns (ok: bool)
      modifies this
      ensures Contents() == PasswordChanged(old(Contents()), uid)
      ensures ok <==> uid in old(accounts)
      ensures ok ==> uid in accounts && accounts[uid].tokenVersion == old(accounts)[uid].tokenVersion + 1
      ensures ok ==> accounts == old(accounts)[uid := Account(old(accounts)[uid].isActive, accounts[uid].tokenVersion)]
    {
      if uid !in accounts {
        return false;
      }
      var account := accounts[uid];
      accounts := accounts[uid := account.(tokenVersion := account.tokenVersion + 1)];
      return true;
    }

    /** The answer is the same whether or not there is such an account; a token goes out only if there is. */
    method RequestPasswordReset(uid: UserId, now: Instant) returns (token: Option<Claims>)
      modifies this
      ensures Contents() == ResetRequested(old(Contents()), uid, now)
      ensures token.Some? <==> uid in accounts
      ensures token.Some? ==> token.value in log.others
      ensures token.Some? ==>
                token.value == Claims(ResetToken, uid, accounts[uid].tokenVersion, None, now / SECOND + 30 * 60)
    {
      if uid !in accounts {
        return None;
      }
      token := Some(Claims(ResetToken, uid, accounts[uid].tokenVersion, None, Clock(now) + RESET_TTL));
      log := log.(others := log.others + {token.value});
    }

    method ConfirmPasswordReset(token: Claims, genuine: bool, now: Instant) returns (ok: bool)
      requires genuine == Genuine(log, token)
      modifies this
      ensures Contents() == ResetConfirmed(old(Contents()), token, now)
      ensures ok <==> genuine && token.kind == ResetToken && token.exp >= now / SECOND && token.userId in old(accounts)
      ensures ok ==> token.userId in accounts
                     && accounts[token.userId].tokenVersion == old(accounts)[token.userId].tokenVersion + 1
    {
      if !genuine || token.exp < Clock(now) || token.kind != ResetToken {
        return false;
      }
      ok := UpdatePassword(token.userId);
    }

    method PruneRevokedTokens(now: Instant) returns (removed: nat)
      modifies this
      ensures Contents() == Pruned(old(Contents()), now)
      ensures forall jti :: jti in blacklist <==> jti in old(blacklist) && old(blacklist)[jti] * 1_000_000 >= now
      ensures forall jti :: jti in blacklist ==> blacklist[jti] == old(blacklist)[jti]
      ensures removed == |old(blacklist).Keys - blacklist.Keys|
    {
      var kept := map jti | jti in blacklist && !Prunable(blacklist[jti], now) :: blacklist[jti];
      removed := |blacklist.Keys - kept.Keys|;
      blacklist := kept;
    }

    method GetOrCreateTelegramUser(tg: TelegramId) returns (uid: UserId)
      modifies this
      ensures Contents() == WithTelegramUser(old(Contents()), tg)
      ensures tg in telegram && uid == telegram[tg]
      ensures if tg in old(telegram) then accounts == old(accounts) && telegram == old(telegram)
              else uid == old(nextUser) && accounts == old(accounts)[uid := Account(true, 0)]
                   && telegram == old(telegram)[tg := uid]
    {
      if tg in telegram {
        return telegram[tg];
      }
      uid := Register();
      telegram := telegram[tg := uid];
    }

    method StartQrSession(now: Instant) returns (sid: SessionId)
      modifies this
      ensures Contents() == QrStarted(old(Contents()), now)
      ensures sid == old(nextSession)
      ensures sessions == old(sessions)[sid := QrSession(Pending, None, None, now + 120 * SECOND)]
    {
      sid := nextSession;
      sessions := sessions[sid := QrSession(Pending, None, None, now + QR_TTL * SECOND)];
      nextSession := nextSession + 1;
    }

    method QrSessionStatus(sid: SessionId, now: Instant) returns (r: Result<QrAnswer, QrError>)
      modifies this
      ensures Contents() == QrPolled(old(Contents()), sid, now)
      ensures r.Ok? && r.value.Tokens? <==>
              && sid in old(sessions) && old(sessions)[sid].status == Approved && now < old(sessions)[sid].expiresAt
              && var uid := old(sessions)[sid].userId;
              && uid.Some? && uid.value in old(accounts) && old(accounts)[uid.value].isActive
      ensures (&& sid in old(sessions) && now >= old(sessions)[sid].expiresAt
               && (old(sessions)[sid].status == Pending || old(sessions)[sid].status == Approved)) ==>
                r == Ok(Status(Expired))
      ensures sid in old(sessions) && old(sessions)[sid].status == Pending && now < old(sessions)[sid].expiresAt ==>
                r == Ok(Status(Pending))
      ensures r.Ok? && r.value.Tokens? ==>
                && var uid := old(sessions)[sid].userId.value;
                && uid in old(accounts)
                  && PairFor(r.value.pair, uid, old(accounts)[uid].tokenVersion, old(nextJti), now)
      ensures r.Ok? && r.value.Status? ==> sid in sessions && r.value.status == sessions[sid].status
      ensures r == Err(NotFound) <==> sid !in old(sessions)
    {
      if sid !in sessions {
        return Err(NotFound);
      }
      var session := sessions[sid];
      if session.status == Consumed {
        return Ok(Status(Consumed));
      }
      if (session.status == Pending || session.status == Approved) && now >= session.expiresAt {
        sessions := sessions[sid := session.(status := Expired)];
        return Ok(Status(Expired));
      }
      if session.status == Approved {
        if session.userId.None? || session.userId.value !in accounts || !accounts[session.userId.value].isActive {
          return Err(UserUnavailable);
        }
        var uid := session.userId.value;
        sessions := sessions[sid := session.(status := Consumed)];
        log := log.(redemptions := log.redemptions + [Redemption(sid, uid, now)],
                    families := log.families + [Family(uid, accounts[uid].tokenVersion)]);
        var pair := Issue(uid, |log.families| - 1, now);
        return Ok(Tokens(pair));
      }
      return Ok(Status(session.status));
    }

    method ApproveQrSession(sid: SessionId, tg: TelegramId, trusted: bool, now: Instant) returns (r: Option<QrError>)
      modifies this
      ensures Contents() == if trusted then QrApproved(old(Contents()), sid, tg, now) else old(Contents())
      ensures r.None? <==> trusted && ValidTelegramId(tg) && sid in old(sessions)
                           && old(sessions)[sid].status == Pending && now < old(sessions)[sid].expiresAt
      ensures r.None? ==> && sid in sessions && tg in telegram
                          && sessions[sid]
                            == QrSession(Approved, Some(telegram[tg]), Some(tg), old(sessions)[sid].expiresAt)
      ensures r.Some? && r.value.NotPending? ==> sid in sessions && r.value.status == sessions[sid].status != Pending
    {
      if !trusted {
        return Some(Forbidden);
      }
      if !ValidTelegramId(tg) {
        return Some(BadTelegramId);
      }
      if sid !in sessions {
        return Some(NotFound);
      }
      var session := sessions[sid];
      if (session.status == Pending || session.status == Approved) && now >= session.expiresAt {
        session := session.(status := Expired);
        sessions := sessions[sid := session];
      }
      if session.status != Pending {
        return Some(NotPending(session.status));
      }
      var uid := GetOrCreateTelegramUser(tg);
      sessions := sessions[sid := session.(status := Approved, telegramId := Some(tg), userId := Some(uid))];
      log := log.(approvals := log.approvals[sid := uid]);
      return None;
    }

    method BotLoginLink(tg: TelegramId, trusted: bool, now: Instant) returns (r: Result<SessionId, QrError>)
      modifies this
      ensures Contents() == if trusted then BotLinked(old(Contents()), tg, now) else old(Contents())
      ensures r.Ok? <==> trusted && ValidTelegramId(tg)
      ensures r.Ok? ==> r.value == old(nextSession) && tg in telegram
      ensures r.Ok? ==>
                sessions == old(sessions)[r.value :=
                  QrSession(Approved, Some(telegram[tg]), Some(tg), now + 30 * 60 * SECOND)]
    {
      if !trusted {
        return Err(Forbidden);
      }
      if !ValidTelegramId(tg) {
        return Err(BadTelegramId);
      }
      var uid := GetOrCreateTelegramUser(tg);
      var sid := nextSession;
      sessions := sessions[sid := QrSession(Approved, Some(uid), Some(tg), now + BOT_LINK_TTL * SECOND)];
      nextSession := nextSession + 1;
      log := log.(approvals := log.approvals[sid := uid]);
      return Ok(sid);
    }

    method HandleQr(e: Event)
      requires e.action.StartQr? || e.action.PollQr? || e.action.ApproveQr? || e.action.BotLink?
      modifies this
      ensures Contents() == Step(old(Contents()), e)
    {
      match e.action
      case StartQr =>
        var _ := StartQrSession(e.at);
      case PollQr(sid) =>
        var _ := QrSessionStatus(sid, e.at);
      case ApproveQr(sid, tg, trusted) =>
        var _ := ApproveQrSession(sid, tg, trusted, e.at);
      case BotLink(tg, trusted) =>
        var _ := BotLoginLink(tg, trusted, e.at);
    }

    method HandleAccount(e: Event)
      requires e.action.Register? || e.action.SetActive? || e.action.ChangePassword? || e.action.RequestReset?
      modifies this
      ensures Contents() == Step(old(Contents()), e)
    {
      match e.action
      case Register =>
        var _ := Register();
      case SetActive(uid, active) =>
        SetActive(uid, active);
      case ChangePassword(uid) =>
        var _ := UpdatePassword(uid);
      case RequestReset(uid) =>
        var _ := RequestPasswordReset(uid, e.at);
    }

    /** One request of any kind; `genuine` is what the signature check finds about the token it carries. */
    method Handle(e: Event, genuine: bool)
      requires e.action.Refresh? || e.action.ConfirmReset? ==> genuine == Genuine(log, e.action.token)
      modifies this
      ensures Contents() == Step(old(Contents()), e)
    {
      match e.action
      case Login(uid, passwordOk) =>
        var _ := Login(uid, passwordOk, e.at);
      case Refresh(token) =>
        var _ := Refresh(token, genuine, e.at);
      case ConfirmReset(token) =>
        var _ := ConfirmPasswordReset(token, genuine, e.at);
      case Prune =>
        var _ := PruneRevokedTokens(e.at);
      case Register | SetActive(_, _) | ChangePassword(_) | RequestReset(_) =>
        HandleAccount(e);
      case StartQr | PollQr(_) | ApproveQr(_, _, _) | BotLink(_, _) =>
        HandleQr(e);
    }
  }
}
