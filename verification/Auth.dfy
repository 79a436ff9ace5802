/**
 Accounts, tokens and QR login sessions, and what each request does to them.

 `Db` is what the program stores.  `Log` is what has happened so far: every token handed out, every
 refresh and every QR redemption that succeeded.  Instants are whole microseconds; the `exp` claim is
 in whole seconds, as in section 4.1.4 of RFC 7519.  Tokens are records that nobody can forge, and
 token and session identifiers are fresh by construction.
 */
module Auth {
  import opened Wrappers

  type UserId = nat
  type Jti = nat
  type SessionId = nat
  type TelegramId = int
  type Instant = int

  const SECOND: int := 1_000_000
  const ACCESS_TTL: nat := 3_600
  const REFRESH_TTL: nat := 1_209_600
  const RESET_TTL: nat := 1_800
  const QR_TTL: nat := 120
  const BOT_LINK_TTL: nat := 1_800
  const TELEGRAM_ID_MAX: int := 0x7FFF_FFFF_FFFF_FFFF

  datatype TokenType = AccessToken | RefreshToken | ResetToken

  datatype Claims = Claims(kind: TokenType, userId: UserId, version: nat, jti: Option<Jti>, exp: int)

  datatype Account = Account(isActive: bool, tokenVersion: nat)

  datatype QrStatus = Pending | Approved | Consumed | Expired

  datatype QrSession = QrSession(status: QrStatus, userId: Option<UserId>, telegramId: Option<TelegramId>,
                                 expiresAt: Instant)

  datatype Db = Db(
    accounts: map<UserId, Account>,
    telegram: map<TelegramId, UserId>,
    blacklist: map<Jti, int>,
    sessions: map<SessionId, QrSession>,
    nextUser: UserId,
    nextJti: Jti,
    nextSession: SessionId)

  datatype Redemption = Redemption(session: SessionId, userId: UserId, at: Instant)

  /** One login or QR redemption: the user it was for, at the version the account then had. */
  datatype Family = Family(userId: UserId, version: nat)

  /**
   `refresh` holds every refresh token by its jti, `family` the number of the login or redemption it
   descends from by rotation, `others` the access and reset tokens; `accepted` lists the jtis that
   `/refresh` took.
   */
  datatype Log = Log(
    refresh: map<Jti, Claims>,
    families: seq<Family>,
    family: map<Jti, nat>,
    others: set<Claims>,
    accepted: seq<Jti>,
    logins: nat,
    approvals: map<SessionId, UserId>,
    redemptions: seq<Redemption>)

  datatype World = World(db: Db, log: Log)

  const EMPTY: World := World(Db(map[], map[], map[], map[], 0, 0, 0), Log(map[], [], map[], {}, [], 0, map[], []))

  // ---------- tokens ----------

  /** The whole second that the clock shows. */
  function Clock(now: Instant): int {
    now / SECOND
  }

  predicate Genuine(log: Log, token: Claims) {
    token in log.others || (token.jti.Some? && token.jti.value in log.refresh && log.refresh[token.jti.value] == token)
  }

  /** A token decodes when it is ours, its second has not gone by, and it is of the expected type. */
  function Decode(log: Log, token: Claims, expected: TokenType, now: Instant): Option<Claims> {
    if !Genuine(log, token) || token.exp < Clock(now) then None
    else if token.kind != expected then None
    else Some(token)
  }

  function AccessFor(uid: UserId, account: Account, now: Instant): Claims {
    Claims(AccessToken, uid, account.tokenVersion, None, Clock(now) + ACCESS_TTL)
  }

  function RefreshFor(uid: UserId, account: Account, jti: Jti, now: Instant): Claims {
    Claims(RefreshToken, uid, account.tokenVersion, Some(jti), Clock(now) + REFRESH_TTL)
  }

  /** Hands out an access token and a refresh token; the latter joins `family`. */
  function Mint(w: World, uid: UserId, family: nat, now: Instant): World
    requires uid in w.db.accounts
  {
    var account := w.db.accounts[uid];
    var jti := w.db.nextJti;
    World(
      w.db.(nextJti := jti + 1),
      w.log.(refresh := w.log.refresh[jti := RefreshFor(uid, account, jti, now)],
             family := w.log.family[jti := family],
             others := w.log.others + {AccessFor(uid, account, now)}))
  }

  /** Tokens that descend from no other. */
  function MintNew(w: World, uid: UserId, now: Instant): World
    requires uid in w.db.accounts
  {
    Mint(w.(log := w.log.(families := w.log.families + [Family(uid, w.db.accounts[uid].tokenVersion)])),
         uid, |w.log.families|, now)
  }

  // ---------- password login, refresh, password change ----------

  predicate Usable(db: Db, uid: UserId) {
    uid in db.accounts && db.accounts[uid].isActive
  }

  function LoggedIn(w: World, uid: UserId, passwordOk: bool, now: Instant): World {
    if passwordOk && Usable(w.db, uid)
    then MintNew(w.(log := w.log.(logins := w.log.logins + 1)), uid, now)
    else w
  }

  /** What `/refresh` checks, in the order it checks it. */
  predicate RefreshAccepted(w: World, token: Claims, now: Instant) {
    && Decode(w.log, token, RefreshToken, now).Some?
    && token.jti.Some?
    && token.jti.value !in w.db.blacklist
    && Usable(w.db, token.userId)
    && token.version == w.db.accounts[token.userId].tokenVersion
  }

  /** Rotation: the presented jti is blacklisted until it expires, and its successor is minted. */
  function Refreshed(w: World, token: Claims, now: Instant): World {
    if RefreshAccepted(w, token, now) then
      var jti := token.jti.value;
      var family := if jti in w.log.family then w.log.family[jti] else 0;
      Mint(World(w.db.(blacklist := w.db.blacklist[jti := token.exp]), w.log.(accepted := w.log.accepted + [jti])),
           token.userId, family, now)
    else w
  }

  function PasswordChanged(w: World, uid: UserId): World {
    if uid in w.db.accounts then
      var account := w.db.accounts[uid];
      w.(db := w.db.(accounts := w.db.accounts[uid := account.(tokenVersion := account.tokenVersion + 1)]))
    else w
  }

  function ResetRequested(w: World, uid: UserId, now: Instant): World {
    if uid in w.db.accounts then
      w.(log := w.log.(others := w.log.others +
          {Claims(ResetToken, uid, w.db.accounts[uid].tokenVersion, None, Clock(now) + RESET_TTL)}))
    else w
  }

  function ResetConfirmed(w: World, token: Claims, now: Instant): World {
    if Decode(w.log, token, ResetToken, now).Some? then PasswordChanged(w, token.userId) else w
  }

  /** The rows that pruning deletes: their expiry lies before this very microsecond. */
  predicate Prunable(exp: int, now: Instant) {
    exp * SECOND < now
  }

  function Pruned(w: World, now: Instant): World {
    var kept := map jti | jti in w.db.blacklist && !Prunable(w.db.blacklist[jti], now) :: w.db.blacklist[jti];
    w.(db := w.db.(blacklist := kept))
  }

  // ---------- accounts ----------

  function Registered(w: World): World {
    w.(db := w.db.(accounts := w.db.accounts[w.db.nextUser := Account(true, 0)], nextUser := w.db.nextUser + 1))
  }

  function ActiveSet(w: World, uid: UserId, active: bool): World {
    if uid in w.db.accounts
    then w.(db := w.db.(accounts := w.db.accounts[uid := w.db.accounts[uid].(isActive := active)]))
    else w
  }

  /** The account behind a Telegram user is created on first sight. */
  function WithTelegramUser(w: World, tg: TelegramId): (r: World)
    ensures tg in r.db.telegram
  {
    if tg in w.db.telegram then w
    else
      var r := Registered(w);
      r.(db := r.db.(telegram := r.db.telegram[tg := w.db.nextUser]))
  }

  // ---------- QR login ----------

  predicate ValidTelegramId(tg: TelegramId) {
    1 <= tg <= TELEGRAM_ID_MAX
  }

  predicate TimedOut(session: QrSession, now: Instant) {
    (session.status.Pending? || session.status.Approved?) && now >= session.expiresAt
  }

  function SessionSet(w: World, sid: SessionId, session: QrSession): World {
    w.(db := w.db.(sessions := w.db.sessions[sid := session]))
  }

  function QrStarted(w: World, now: Instant): World {
    var sid := w.db.nextSession;
    var r := SessionSet(w, sid, QrSession(Pending, None, None, now + QR_TTL * SECOND));
    r.(db := r.db.(nextSession := sid + 1))
  }

  /** Polling hands out tokens for an approved session in time, once, and otherwise only reports. */
  predicate Redeems(w: World, sid: SessionId, now: Instant) {
    && sid in w.db.sessions
    && w.db.sessions[sid].status.Approved?
    && !TimedOut(w.db.sessions[sid], now)
    && w.db.sessions[sid].userId.Some?
    && Usable(w.db, w.db.sessions[sid].userId.value)
  }

  function QrPolled(w: World, sid: SessionId, now: Instant): World {
    if sid !in w.db.sessions then w
    else
      var session := w.db.sessions[sid];
      if TimedOut(session, now) then SessionSet(w, sid, session.(status := Expired))
      else if Redeems(w, sid, now) then
        var uid := session.userId.value;
        var r := SessionSet(w, sid, session.(status := Consumed));
        MintNew(r.(log := r.log.(redemptions := r.log.redemptions + [Redemption(sid, uid, now)])), uid, now)
      else w
  }

  function QrApproved(w: World, sid: SessionId, tg: TelegramId, now: Instant): World {
    if !ValidTelegramId(tg) || sid !in w.db.sessions then w
    else
      var session := w.db.sessions[sid];
      if TimedOut(session, now) then SessionSet(w, sid, session.(status := Expired))
      else if !session.status.Pending? then w
      else
        var r := WithTelegramUser(w, tg);
        var uid := r.db.telegram[tg];
        var s := SessionSet(r, sid, session.(status := Approved, telegramId := Some(tg), userId := Some(uid)));
        s.(log := s.log.(approvals := s.log.approvals[sid := uid]))
  }

  /** A session that is approved from the start, for the bot's one-tap link. */
  function BotLinked(w: World, tg: TelegramId, now: Instant): World {
    if !ValidTelegramId(tg) then w
    else
      var r := WithTelegramUser(w, tg);
      var uid := r.db.telegram[tg];
      var sid := r.db.nextSession;
      var s := SessionSet(r, sid, QrSession(Approved, Some(uid), Some(tg), now + BOT_LINK_TTL * SECOND));
      World(s.db.(nextSession := sid + 1), s.log.(approvals := s.log.approvals[sid := uid]))
  }

  // ---------- runs ----------

  datatype Action =
    | Register
    | SetActive(uid: UserId, active: bool)
    | Login(uid: UserId, passwordOk: bool)
    | Refresh(token: Claims)
    | ChangePassword(uid: UserId)
    | RequestReset(uid: UserId)
    | ConfirmReset(token: Claims)
    | Prune
    | StartQr
    | PollQr(sid: SessionId)
    | ApproveQr(sid: SessionId, tg: TelegramId, trusted: bool)
    | BotLink(tg: TelegramId, trusted: bool)

  datatype Event = Event(at: Instant, action: Action)

  /** One request.  Without the bot's secret, the bot's endpoints refuse before touching anything. */
  function Step(w: World, e: Event): World {
    match e.action
    case Register => Registered(w)
    case SetActive(uid, active) => ActiveSet(w, uid, active)
    case Login(uid, passwordOk) => LoggedIn(w, uid, passwordOk, e.at)
    case Refresh(token) => Refreshed(w, token, e.at)
    case ChangePassword(uid) => PasswordChanged(w, uid)
    case RequestReset(uid) => ResetRequested(w, uid, e.at)
    case ConfirmReset(token) => ResetConfirmed(w, token, e.at)
    case Prune => Pruned(w, e.at)
    case StartQr => QrStarted(w, e.at)
    case PollQr(sid) => QrPolled(w, sid, e.at)
    case ApproveQr(sid, tg, trusted) => if trusted then QrApproved(w, sid, tg, e.at) else w
    case BotLink(tg, trusted) => if trusted then BotLinked(w, tg, e.at) else w
  }

  function Run(w: World, events: seq<Event>): World {
    if |events| == 0 then w else Step(Run(w, events[..|events| - 1]), events[|events| - 1])
  }

  /** The clock never goes back, from `start` to `now`. */
  predicate Chronological(events: seq<Event>, start: Instant, now: Instant) {
    if |events| == 0 then start <= now
    else events[|events| - 1].at <= now && Chronological(events[..|events| - 1], start, events[|events| - 1].at)
  }
}
