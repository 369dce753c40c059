/**
 What every server operation does to the server's state: sessions, channels, members, screen shares,
 invitations and delete timers. The class in ServerState.dfy implements these definitions step by
 step; the laws about them are in ServerInvariants.dfy.
 */
module ServerModel {
  import opened Wrappers
  import opened Bytes
  import opened RateLimiting

  // Identifiers are 32-bit words; `Next` says where they wrap.
  type UserId = nat
  type SessionId = nat
  type ChannelId = nat
  type TimerId = nat

  const GENERAL: ChannelId := 0
  const MAX_INVITES := 50

  datatype Addr = Addr(ip: int, port: int)

  datatype Session = Session(
    userId: UserId, username: string, channelId: ChannelId,
    sharing: bool, watching: Option<UserId>,
    udpAddr: Option<Addr>, udpToken: int, peerIp: int,
    passwordRate: Bucket, createRate: Bucket)

  datatype Share = Share(sharerSession: SessionId, viewers: set<UserId>, resolution: int)

  datatype Channel = Channel(
    name: string, maxUsers: int, userCount: int, hasPassword: bool,
    members: set<UserId>, password: Option<string>, deleteTimer: Option<TimerId>,
    createdBy: Option<UserId>, invited: set<UserId>, shares: map<UserId, Share>, persistent: bool)

  /** The identifiers to be handed out next. */
  datatype Counters = Counters(user: UserId, session: SessionId, channel: ChannelId, timer: TimerId)

  /** `timers` holds the delete timers that are running: neither aborted nor fired. */
  datatype State = State(
    sessions: map<SessionId, Session>,
    userToSession: map<UserId, SessionId>,
    nameToSession: map<string, SessionId>,
    addrToSession: map<Addr, SessionId>,
    channels: map<ChannelId, Channel>,
    timers: map<TimerId, ChannelId>,
    next: Counters)

  /** Settings, and the two library functions the state depends on. */
  datatype Config = Config(
    maxUsers: nat, maxChannels: nat, maxNameLen: nat,
    hash: string -> string, lower: string -> string)

  datatype Refusal =
    | NoSuchChannel | IncorrectPassword | ChannelFull | TooManyChannels | DuplicateName
    | General | Persistent | NotEmpty | NotCreator | Self | NotMember | NoSession | AlreadyMember
    | InvitesFull | AlreadySharing | NotSharing | NotWatching

  // ---------------------------------------------------------------- access

  function WithSession(s: State, sid: SessionId, x: Session): State {
    s.(sessions := s.sessions[sid := x])
  }

  function WithChannel(s: State, c: ChannelId, ch: Channel): State {
    s.(channels := s.channels[c := ch])
  }

  /** The sessions of those users that have one. */
  function SessionsOf(s: State, users: set<UserId>): set<SessionId> {
    set u | u in users && u in s.userToSession :: s.userToSession[u]
  }

  function ChannelOf(s: State, sid: SessionId): ChannelId {
    if sid in s.sessions then s.sessions[sid].channelId else GENERAL
  }

  function TimerSet(t: Option<TimerId>): set<TimerId> {
    if t.Some? then {t.value} else {}
  }

  function Members(ch: Channel, members: set<UserId>): Channel {
    ch.(members := members, userCount := |members|)
  }

  // ---------------------------------------------------------------- joining and leaving

  /** Persistent channels store a hash of their password, the others the password itself. */
  predicate PasswordMatches(cfg: Config, ch: Channel, attempt: Option<string>) {
    ch.password.None? ||
    (attempt.Some? && (if ch.persistent then cfg.hash(attempt.value) else attempt.value) == ch.password.value)
  }

  predicate IsFull(ch: Channel) {
    ch.maxUsers > 0 && |ch.members| >= ch.maxUsers
  }

  function ValidateJoin(cfg: Config, s: State, c: ChannelId, attempt: Option<string>, uid: UserId): Option<Refusal> {
    if c !in s.channels then Some(NoSuchChannel)
    else
      var ch := s.channels[c];
      if uid !in ch.invited && !PasswordMatches(cfg, ch, attempt) then Some(IncorrectPassword)
      else if IsFull(ch) then Some(ChannelFull)
      else None
  }

  /** The channel after uid was let in: the invitation is used up and the delete timer cancelled. */
  function Admit(ch: Channel, uid: UserId): Channel {
    Members(ch, ch.members + {uid}).(invited := ch.invited - {uid}, deleteTimer := None)
  }

  /** The user is in channel c and its session says so. */
  function PutIn(s: State, uid: UserId, sid: SessionId, c: ChannelId): State
    requires c in s.channels
  {
    var s1 := WithChannel(s, c, Admit(s.channels[c], uid)).(timers := s.timers - TimerSet(s.channels[c].deleteTimer));
    if sid in s1.sessions then WithSession(s1, sid, s1.sessions[sid].(channelId := c)) else s1
  }

  /** A refused join still uses up the invitation when the channel is full. */
  function Join(cfg: Config, s: State, uid: UserId, sid: SessionId, c: ChannelId, attempt: Option<string>): State {
    var refusal := ValidateJoin(cfg, s, c, attempt, uid);
    if refusal == Some(NoSuchChannel) then s
    else if refusal.Some? then WithChannel(s, c, s.channels[c].(invited := s.channels[c].invited - {uid}))
    else PutIn(s, uid, sid, c)
  }

  /** The channel a user would be taken out of, if any. */
  predicate CanLeave(s: State, uid: UserId, sid: SessionId) {
    && sid in s.sessions
    && s.sessions[sid].channelId in s.channels
    && uid in s.channels[s.sessions[sid].channelId].members
  }

  function Leave(s: State, uid: UserId, sid: SessionId): State {
    if !CanLeave(s, uid, sid) then s
    else
      var c := s.sessions[sid].channelId;
      WithChannel(s, c, Members(s.channels[c], s.channels[c].members - {uid}))
  }

  // ---------------------------------------------------------------- sessions

  /** A 32-bit counter after one identifier was drawn. */
  function Next(n: nat): nat {
    (n + 1) % 0x1_0000_0000
  }

  /** A login whose versions and user name were accepted. */
  function Login(cfg: Config, s: State, name: string, token: int, ip: int, now: real): State {
    if |s.sessions| >= cfg.maxUsers then s
    else
      var s1 := s.(next := s.next.(user := Next(s.next.user), session := Next(s.next.session)));
      if cfg.lower(name) in s.nameToSession then s1
      else
        var session := Session(s.next.user, name, GENERAL, false, None, None, token, ip,
                               NewBucket(3.0, 1.0, now), NewBucket(1.0, 0.2, now));
        s1.(sessions := s.sessions[s.next.session := session],
            userToSession := s.userToSession[s.next.user := s.next.session],
            nameToSession := s.nameToSession[cfg.lower(name) := s.next.session])
  }

  function RemoveSession(cfg: Config, s: State, sid: SessionId): State {
    if sid !in s.sessions then s
    else
      var x := s.sessions[sid];
      var addrs := if x.udpAddr.Some? then s.addrToSession - {x.udpAddr.value} else s.addrToSession;
      var s1 := s.(sessions := s.sessions - {sid},
                   userToSession := s.userToSession - {x.userId},
                   nameToSession := s.nameToSession - {cfg.lower(x.username)},
                   addrToSession := addrs);
      if x.channelId in s.channels
      then WithChannel(s1, x.channelId, Members(s.channels[x.channelId], s.channels[x.channelId].members - {x.userId}))
      else s1
  }

  // ---------------------------------------------------------------- channels

  function UserChannels(s: State): set<ChannelId> {
    set c | c in s.channels && !s.channels[c].persistent && c != GENERAL
  }

  predicate NameTaken(s: State, name: string) {
    exists c :: c in s.channels && s.channels[c].name == name
  }

  function CreateRefusal(cfg: Config, s: State, name: string): Option<Refusal> {
    if |UserChannels(s)| >= cfg.maxChannels then Some(TooManyChannels)
    else if NameTaken(s, name) then Some(DuplicateName)
    else None
  }

  function NewChannel(name: string, password: Option<string>, createdBy: UserId): Channel {
    Channel(name, 0, 0, password.Some?, {}, password, None, Some(createdBy), {}, map[], false)
  }

  function Create(cfg: Config, s: State, name: string, password: Option<string>, uid: UserId): State {
    if CreateRefusal(cfg, s, name).Some? then s
    else WithChannel(s, s.next.channel, NewChannel(name, password, uid)).(next := s.next.(channel := Next(s.next.channel)))
  }

  function DeleteRefusal(s: State, c: ChannelId): Option<Refusal> {
    if c == GENERAL then Some(Refusal.General)
    else if c !in s.channels then Some(NoSuchChannel)
    else if s.channels[c].persistent then Some(Persistent)
    else if s.channels[c].members != {} then Some(NotEmpty)
    else None
  }

  function Delete(s: State, c: ChannelId): State {
    if DeleteRefusal(s, c).Some? then s
    else s.(channels := s.channels - {c}, timers := s.timers - TimerSet(s.channels[c].deleteTimer))
  }

  function SetPasswordRefusal(s: State, c: ChannelId, uid: UserId): Option<Refusal> {
    if c == GENERAL then Some(Refusal.General)
    else if c !in s.channels then Some(NoSuchChannel)
    else if s.channels[c].createdBy != Some(uid) then Some(NotCreator)
    else None
  }

  function SetPassword(s: State, c: ChannelId, uid: UserId, password: Option<string>): State {
    if SetPasswordRefusal(s, c, uid).Some? then s
    else WithChannel(s, c, s.channels[c].(hasPassword := password.Some?, password := password))
  }

  function KickRefusal(s: State, c: ChannelId, requester: UserId, target: UserId): Option<Refusal> {
    if c == GENERAL then Some(Refusal.General)
    else if requester == target then Some(Self)
    else if c !in s.channels then Some(NoSuchChannel)
    else if s.channels[c].createdBy != Some(requester) then Some(NotCreator)
    else if target !in s.channels[c].members then Some(NotMember)
    else if target !in s.userToSession then Some(NoSession)
    else None
  }

  /** The target is taken out before its session is looked up. */
  function Kick(s: State, c: ChannelId, requester: UserId, target: UserId): State {
    var refusal := KickRefusal(s, c, requester, target);
    if refusal.Some? && refusal != Some(NoSession) then s
    else WithChannel(s, c, Members(s.channels[c], s.channels[c].members - {target}))
  }

  function InviteRefusal(s: State, c: ChannelId, requester: UserId, target: UserId): Option<Refusal> {
    if c == GENERAL then Some(Refusal.General)
    else if c !in s.channels then Some(NoSuchChannel)
    else if s.channels[c].createdBy != Some(requester) then Some(NotCreator)
    else if target in s.channels[c].members then Some(AlreadyMember)
    else if |s.channels[c].invited| >= MAX_INVITES then Some(InvitesFull)
    else None
  }

  function Invite(s: State, c: ChannelId, requester: UserId, target: UserId): State {
    if InviteRefusal(s, c, requester, target).Some? then s
    else WithChannel(s, c, s.channels[c].(invited := s.channels[c].invited + {target}))
  }

  /** The names that the invited user is told: of the channel and of whoever invites. */
  datatype Invitation = Invitation(channel: string, inviter: string)

  function InvitationOf(s: State, c: ChannelId, requester: UserId): Invitation
    requires c in s.channels
  {
    var known := requester in s.userToSession && s.userToSession[requester] in s.sessions;
    Invitation(s.channels[c].name, if known then s.sessions[s.userToSession[requester]].username else "Unknown")
  }

  function RemoveInvite(s: State, c: ChannelId, uid: UserId): State {
    if c !in s.channels then s else WithChannel(s, c, s.channels[c].(invited := s.channels[c].invited - {uid}))
  }

  // ---------------------------------------------------------------- delete timers

  /** Store a running timer with its channel, aborting the one stored before. */
  function SetDeleteTimer(s: State, c: ChannelId, t: TimerId): State {
    if c !in s.channels then s
    else WithChannel(s, c, s.channels[c].(deleteTimer := Some(t))).(timers := s.timers - TimerSet(s.channels[c].deleteTimer))
  }

  function StartDeleteTimer(s: State, c: ChannelId): State {
    if c in s.channels && s.channels[c].persistent then s
    else SetDeleteTimer(s.(timers := s.timers[s.next.timer := c], next := s.next.(timer := s.next.timer + 1)), c, s.next.timer)
  }

  /** A timer that fires is no longer running; it deletes its channel if that is allowed. */
  function FireTimer(s: State, t: TimerId): State {
    if t !in s.timers then s else Delete(s.(timers := s.timers - {t}), s.timers[t])
  }

  // ---------------------------------------------------------------- screen shares

  function StartShareRefusal(s: State, sid: SessionId, c: ChannelId): Option<Refusal> {
    if c == GENERAL then Some(Refusal.General)
    else if sid !in s.sessions then Some(NoSession)
    else if s.sessions[sid].sharing then Some(AlreadySharing)
    else if c !in s.channels then Some(NoSuchChannel)
    else None
  }

  /** The session is marked before the channel is looked up. */
  function StartShare(s: State, uid: UserId, sid: SessionId, c: ChannelId, resolution: int): State {
    var refusal := StartShareRefusal(s, sid, c);
    if refusal.Some? && refusal != Some(NoSuchChannel) then s
    else
      var s1 := WithSession(s, sid, s.sessions[sid].(sharing := true));
      if refusal.Some? then s1
      else WithChannel(s1, c, s.channels[c].(shares := s.channels[c].shares[uid := Share(sid, {}, resolution)]))
  }

  /** These sessions watch nothing. */
  function Unwatched(sessions: map<SessionId, Session>, gone: set<SessionId>): map<SessionId, Session> {
    map sid | sid in sessions :: if sid in gone then sessions[sid].(watching := None) else sessions[sid]
  }

  /** Nobody among `users` watches anything any more. */
  function ClearWatching(s: State, users: set<UserId>): State {
    s.(sessions := Unwatched(s.sessions, SessionsOf(s, users)))
  }

  function Unmark(s: State, sid: SessionId): State {
    if sid in s.sessions then WithSession(s, sid, s.sessions[sid].(sharing := false)) else s
  }

  function StopShareRefusal(s: State, uid: UserId, c: ChannelId): Option<Refusal> {
    if c !in s.channels then Some(NoSuchChannel)
    else if uid !in s.channels[c].shares then Some(NotSharing)
    else None
  }

  function RemoveShare(s: State, uid: UserId, c: ChannelId): State
    requires c in s.channels
  {
    WithChannel(s, c, s.channels[c].(shares := s.channels[c].shares - {uid}))
  }

  /** Remove a share and let its viewers watch nothing. */
  function EndShare(s: State, uid: UserId, c: ChannelId): State {
    if c !in s.channels || uid !in s.channels[c].shares then s
    else ClearWatching(RemoveShare(s, uid, c), s.channels[c].shares[uid].viewers)
  }

  function StopShare(s: State, uid: UserId, sid: SessionId, c: ChannelId): State {
    EndShare(Unmark(s, sid), uid, c)
  }

  /** Take a viewer off a share, if there is such a share. */
  function RemoveViewer(s: State, viewer: UserId, sharer: UserId, c: ChannelId): State {
    if c !in s.channels || sharer !in s.channels[c].shares then s
    else
      var ch := s.channels[c];
      var share := ch.shares[sharer];
      WithChannel(s, c, ch.(shares := ch.shares[sharer := share.(viewers := share.viewers - {viewer})]))
  }

  function SetWatching(s: State, sid: SessionId, sharer: Option<UserId>): State {
    if sid in s.sessions then WithSession(s, sid, s.sessions[sid].(watching := sharer)) else s
  }

  function ShareRefusal(s: State, sharer: UserId, c: ChannelId): Option<Refusal> {
    if c !in s.channels then Some(NoSuchChannel)
    else if sharer !in s.channels[c].shares then Some(NotSharing)
    else None
  }

  function WatchRefusal(s: State, sid: SessionId, sharer: UserId, c: ChannelId): Option<Refusal> {
    if sid !in s.sessions then Some(NoSession) else ShareRefusal(s, sharer, c)
  }

  function AddViewer(s: State, viewer: UserId, sharer: UserId, c: ChannelId): State {
    if ShareRefusal(s, sharer, c).Some? then s
    else
      var ch := s.channels[c];
      var share := ch.shares[sharer];
      WithChannel(s, c, ch.(shares := ch.shares[sharer := share.(viewers := share.viewers + {viewer})]))
  }

  /** Whoever watches another share is taken off it first. */
  function LeavePrevious(s: State, viewer: UserId, sid: SessionId, sharer: UserId, c: ChannelId): State {
    if sid in s.sessions && s.sessions[sid].watching.Some? && s.sessions[sid].watching.value != sharer
    then RemoveViewer(s, viewer, s.sessions[sid].watching.value, c)
    else s
  }

  /** A share that lost or gained a viewer: whose it is, who is told, and how many viewers it had and has. */
  datatype Audience = Audience(sharer: UserId, sharerSession: SessionId, before: nat, after: nat)

  function AudienceWithout(s: State, viewer: UserId, sharer: UserId, c: ChannelId): Option<Audience> {
    if ShareRefusal(s, sharer, c).Some? then None
    else
      var share := s.channels[c].shares[sharer];
      Some(Audience(sharer, share.sharerSession, |share.viewers|, |share.viewers - {viewer}|))
  }

  function AudienceWith(s: State, viewer: UserId, sharer: UserId, c: ChannelId): Option<Audience> {
    if ShareRefusal(s, sharer, c).Some? then None
    else
      var share := s.channels[c].shares[sharer];
      Some(Audience(sharer, share.sharerSession, |share.viewers|, |share.viewers + {viewer}|))
  }

  /** The share that a viewer leaves by watching another one. */
  function PreviousAudience(s: State, viewer: UserId, sid: SessionId, sharer: UserId, c: ChannelId): Option<Audience> {
    if sid in s.sessions && s.sessions[sid].watching.Some? && s.sessions[sid].watching.value != sharer
    then AudienceWithout(s, viewer, s.sessions[sid].watching.value, c)
    else None
  }

  /** The session is marked before the share is known to exist. */
  function Watch(s: State, viewer: UserId, sid: SessionId, sharer: UserId, c: ChannelId): State {
    if sid !in s.sessions then s
    else AddViewer(SetWatching(LeavePrevious(s, viewer, sid, sharer, c), sid, Some(sharer)), viewer, sharer, c)
  }

  function StopWatchingRefusal(s: State, sid: SessionId, c: ChannelId): Option<Refusal> {
    if sid !in s.sessions then Some(NoSession)
    else if s.sessions[sid].watching.None? then Some(NotWatching)
    else ShareRefusal(s, s.sessions[sid].watching.value, c)
  }

  function StopWatching(s: State, viewer: UserId, sid: SessionId, c: ChannelId): State {
    if sid !in s.sessions || s.sessions[sid].watching.None? then s
    else RemoveViewer(SetWatching(s, sid, None), viewer, s.sessions[sid].watching.value, c)
  }

  /** Take the user of a session off what it watches. */
  function StopAsViewer(s: State, uid: UserId, sid: SessionId, c: ChannelId): State {
    if sid !in s.sessions || s.sessions[sid].watching.None? then s
    else SetWatching(RemoveViewer(s, uid, s.sessions[sid].watching.value, c), sid, None)
  }

  /** Who has to be told of a cleanup: former viewers, the sharer that lost a viewer, and the channel. */
  datatype Cleanup = Cleanup(stopped: Option<UserId>, viewers: set<SessionId>, left: Option<Audience>, members: set<SessionId>)

  const NO_CLEANUP := Cleanup(None, {}, None, {})

  function CleanupReport(s: State, uid: UserId, sid: SessionId, c: ChannelId): Cleanup {
    if c !in s.channels then NO_CLEANUP
    else
      var shared := uid in s.channels[c].shares;
      var s1 := Unmark(EndShare(s, uid, c), sid);
      var watching := if sid in s1.sessions then s1.sessions[sid].watching else None;
      Cleanup(if shared then Some(uid) else None,
              if shared then SessionsOf(s, s.channels[c].shares[uid].viewers) else {},
              if watching.Some? then AudienceWithout(s1, uid, watching.value, c) else None,
              SessionsOf(s, s.channels[c].members - {uid}))
  }

  /** Undo everything a user has to do with screen shares in channel c. */
  function CleanupShares(s: State, uid: UserId, sid: SessionId, c: ChannelId): State {
    if c !in s.channels then s
    else StopAsViewer(Unmark(EndShare(s, uid, c), sid), uid, sid, c)
  }

  // ---------------------------------------------------------------- handlers

  /** Whether a join message passes the password rate limit, and the bucket it leaves behind. */
  predicate PasswordAllowed(s: State, sid: SessionId, attempt: Option<string>, now: real) {
    attempt.None? || (sid in s.sessions && TryConsume(s.sessions[sid].passwordRate, now).1)
  }

  function ChargePassword(s: State, sid: SessionId, attempt: Option<string>, now: real): State {
    if attempt.None? || sid !in s.sessions then s
    else WithSession(s, sid, s.sessions[sid].(passwordRate := TryConsume(s.sessions[sid].passwordRate, now).0))
  }

  /** Leave the current channel and start its delete timer if that left it empty. */
  function LeaveAndTime(s: State, uid: UserId, sid: SessionId): State {
    var s1 := Leave(s, uid, sid);
    if !CanLeave(s, uid, sid) then s1
    else
      var c := s.sessions[sid].channelId;
      if s1.channels[c].members == {} && c != GENERAL then StartDeleteTimer(s1, c) else s1
  }

  function Depart(s: State, uid: UserId, sid: SessionId, target: ChannelId): State {
    var c := ChannelOf(s, sid);
    LeaveAndTime(if c != target && c != GENERAL then CleanupShares(s, uid, sid, c) else s, uid, sid)
  }

  datatype JoinOutcome = RateLimited | Refused(reason: Refusal) | Joined | Fallback

  function JoinOutcomeOf(cfg: Config, s: State, uid: UserId, sid: SessionId, c: ChannelId, attempt: Option<string>, now: real): JoinOutcome {
    var s0 := ChargePassword(s, sid, attempt, now);
    if !PasswordAllowed(s, sid, attempt, now) then RateLimited
    else if ValidateJoin(cfg, s0, c, attempt, uid).Some? then Refused(ValidateJoin(cfg, s0, c, attempt, uid).value)
    else if ValidateJoin(cfg, Depart(s0, uid, sid, c), c, attempt, uid).None? then Joined
    else Fallback
  }

  function HandleJoin(cfg: Config, s: State, uid: UserId, sid: SessionId, c: ChannelId, attempt: Option<string>, now: real): State {
    var s0 := ChargePassword(s, sid, attempt, now);
    match JoinOutcomeOf(cfg, s, uid, sid, c, attempt, now)
    case RateLimited => s0
    case Refused(_) => s0
    case Joined => Join(cfg, Depart(s0, uid, sid, c), uid, sid, c, attempt)
    case Fallback => Join(cfg, Join(cfg, Depart(s0, uid, sid, c), uid, sid, c, attempt), uid, sid, GENERAL, None)
  }

  /** Bytes of a string in UTF-8. */
  function Utf8Len(name: string): nat {
    if name == "" then 0 else
    (var c := name[0] as int; if c < 0x80 then 1 else if c < 0x800 then 2 else if c < 0x10000 then 3 else 4)
    + Utf8Len(name[1..])
  }

  predicate IsControl(c: char) {
    (c as int) < 0x20 || 0x7F <= (c as int) < 0xA0
  }

  /** A channel name that is already trimmed. */
  predicate NameAccepted(cfg: Config, name: string) {
    name != "" && Utf8Len(name) <= cfg.maxNameLen && forall i :: 0 <= i < |name| ==> !IsControl(name[i])
  }

  /** Unicode's white space. */
  predicate IsSpace(c: char) {
    var n := c as int;
    || 9 <= n <= 13 || n == 0x20 || n == 0x85 || n == 0xA0 || n == 0x1680 || 0x2000 <= n <= 0x200A
    || n == 0x2028 || n == 0x2029 || n == 0x202F || n == 0x205F || n == 0x3000
  }

  function Trim(name: string): (trimmed: string)
    ensures trimmed != "" ==> !IsSpace(trimmed[0]) && !IsSpace(trimmed[|trimmed| - 1])
    ensures |trimmed| <= |name|
  {
    if name == "" then ""
    else if IsSpace(name[0]) then Trim(name[1..])
    else if IsSpace(name[|name| - 1]) then Trim(name[..|name| - 1])
    else name
  }

  function HandleCreate(cfg: Config, s: State, uid: UserId, sid: SessionId, name: string, password: Option<string>, now: real): State {
    if !NameAccepted(cfg, name) || CreateRefusal(cfg, s, name).Some? then s
    else HandleJoin(cfg, Create(cfg, s, name, password, uid), uid, sid, s.next.channel, password, now)
  }

  /** Whether the rate limiter for creations lets a message pass, and the bucket it leaves behind. */
  predicate CreateAllowed(s: State, sid: SessionId, now: real) {
    sid in s.sessions && TryConsume(s.sessions[sid].createRate, now).1
  }

  function ChargeCreate(s: State, sid: SessionId, now: real): State {
    if sid !in s.sessions then s
    else WithSession(s, sid, s.sessions[sid].(createRate := TryConsume(s.sessions[sid].createRate, now).0))
  }

  /** A creation message: rate limit first, then the name is trimmed and handled. */
  function CreateMessage(cfg: Config, s: State, uid: UserId, sid: SessionId, name: string, password: Option<string>, now: real): State {
    var s0 := ChargeCreate(s, sid, now);
    if CreateAllowed(s, sid, now) then HandleCreate(cfg, s0, uid, sid, Trim(name), password, now) else s0
  }

  function HandleKick(cfg: Config, s: State, requester: UserId, c: ChannelId, target: UserId): State {
    var s1 := Kick(s, c, requester, target);
    if KickRefusal(s, c, requester, target).Some? then s1
    else
      var s2 := Join(cfg, s1, target, s.userToSession[target], GENERAL, None);
      if s1.channels[c].members == {} then StartDeleteTimer(s2, c) else s2
  }

  /** A connection ends. */
  function Disconnect(cfg: Config, s: State, uid: UserId, sid: SessionId): State {
    var c := ChannelOf(s, sid);
    var s1 := if c != GENERAL then CleanupShares(s, uid, sid, c) else s;
    RemoveSession(cfg, LeaveAndTime(s1, uid, sid), sid)
  }

  // ---------------------------------------------------------------- UDP address learning

  function CacheCap(cfg: Config): nat {
    if 2 * cfg.maxUsers > 64 then 2 * cfg.maxUsers else 64
  }

  predicate LearningRefused(cfg: Config, s: State, src: Addr, claimed: SessionId, token: int) {
    || claimed !in s.sessions
    || s.sessions[claimed].udpToken != token
    || s.sessions[claimed].peerIp != src.ip
    || (s.sessions[claimed].udpAddr.Some? && s.sessions[claimed].udpAddr.value != src)
    || (s.sessions[claimed].udpAddr.None? && |s.addrToSession| >= CacheCap(cfg))
  }

  /** The session a datagram is accepted for, if any. */
  function Resolved(cfg: Config, s: State, src: Addr, claimed: SessionId, token: int): Option<SessionId> {
    if src in s.addrToSession then
      var sid := s.addrToSession[src];
      if sid in s.sessions && s.sessions[sid].udpToken == token then Some(sid) else None
    else if LearningRefused(cfg, s, src, claimed, token) then None
    else Some(claimed)
  }

  function Resolve(cfg: Config, s: State, src: Addr, claimed: SessionId, token: int): State {
    if src in s.addrToSession then
      if Resolved(cfg, s, src, claimed, token).Some? then s else s.(addrToSession := s.addrToSession - {src})
    else if LearningRefused(cfg, s, src, claimed, token) || s.sessions[claimed].udpAddr.Some? then s
    else
      WithSession(s, claimed, s.sessions[claimed].(udpAddr := Some(src))).(addrToSession := s.addrToSession[src := claimed])
  }

  // ---------------------------------------------------------------- forwarding

  /** UDP addresses of the sessions of those users, the sender's own session aside. */
  function VoiceTargetsAmong(s: State, sid: SessionId, users: set<UserId>): set<Addr> {
    set u | u in users && u in s.userToSession && s.userToSession[u] != sid && s.userToSession[u] in s.sessions
            && s.sessions[s.userToSession[u]].udpAddr.Some? :: s.sessions[s.userToSession[u]].udpAddr.value
  }

  /** A voice packet goes to the other members of the sender's channel; General is silent. */
  function VoiceTargets(s: State, sid: SessionId): set<Addr> {
    var c := ChannelOf(s, sid);
    if sid !in s.sessions || c == GENERAL || c !in s.channels then {}
    else VoiceTargetsAmong(s, sid, s.channels[c].members)
  }

  function ViewerAddrs(s: State, sharer: UserId, c: ChannelId): set<Addr> {
    if c !in s.channels || sharer !in s.channels[c].shares then {}
    else set v | v in s.channels[c].shares[sharer].viewers && v in s.userToSession && s.userToSession[v] in s.sessions
                 && s.sessions[s.userToSession[v]].udpAddr.Some? :: s.sessions[s.userToSession[v]].udpAddr.value
  }

  /** A video packet goes to the viewers of the sender's share. */
  function VideoTargets(s: State, sid: SessionId): set<Addr> {
    if sid !in s.sessions || s.sessions[sid].channelId == GENERAL then {}
    else ViewerAddrs(s, s.sessions[sid].userId, s.sessions[sid].channelId)
  }

  // ---------------------------------------------------------------- runs

  /** What can happen to a server; each event is handled to its end before the next. */
  datatype Event =
    | LoginEv(name: string, token: int, ip: int, now: real)
    | JoinEv(sid: SessionId, c: ChannelId, attempt: Option<string>, now: real)
    | CreateEv(sid: SessionId, name: string, attempt: Option<string>, now: real)
    | PasswordEv(sid: SessionId, c: ChannelId, attempt: Option<string>)
    | KickEv(sid: SessionId, c: ChannelId, target: UserId)
    | InviteEv(sid: SessionId, c: ChannelId, target: UserId)
    | DeclineEv(sid: SessionId, c: ChannelId)
    | StartShareEv(sid: SessionId, resolution: int)
    | StopShareEv(sid: SessionId)
    | WatchEv(sid: SessionId, sharer: UserId)
    | StopWatchingEv(sid: SessionId)
    | DisconnectEv(sid: SessionId)
    | TimerEv(timer: TimerId)
    | DatagramEv(src: Addr, sid: SessionId, token: int)

  /** A message of a connection that has a session. */
  function HandleMessage(cfg: Config, s: State, uid: UserId, e: Event): State
    requires !e.LoginEv? && !e.TimerEv? && !e.DatagramEv?
  {
    match e
    case JoinEv(sid, c, attempt, now) => HandleJoin(cfg, s, uid, sid, c, attempt, now)
    case CreateEv(sid, name, attempt, now) => CreateMessage(cfg, s, uid, sid, name, attempt, now)
    case PasswordEv(_, c, attempt) => SetPassword(s, c, uid, attempt)
    case KickEv(_, c, target) => HandleKick(cfg, s, uid, c, target)
    case InviteEv(_, c, target) => Invite(s, c, uid, target)
    case DeclineEv(_, c) => RemoveInvite(s, c, uid)
    case StartShareEv(sid, resolution) => StartShare(s, uid, sid, ChannelOf(s, sid), resolution)
    case StopShareEv(sid) => StopShare(s, uid, sid, ChannelOf(s, sid))
    case WatchEv(sid, sharer) => Watch(s, uid, sid, sharer, ChannelOf(s, sid))
    case StopWatchingEv(sid) => StopWatching(s, uid, sid, ChannelOf(s, sid))
    case DisconnectEv(sid) => Disconnect(cfg, s, uid, sid)
  }

  function Step(cfg: Config, s: State, e: Event): State {
    match e
    case LoginEv(name, token, ip, now) => Login(cfg, s, name, token, ip, now)
    case TimerEv(t) => FireTimer(s, t)
    case DatagramEv(src, sid, token) => Resolve(cfg, s, src, sid, token)
    case _ => if e.sid in s.sessions then HandleMessage(cfg, s, s.sessions[e.sid].userId, e) else s
  }

  function Run(cfg: Config, s: State, es: seq<Event>): State
    decreases |es|
  {
    if es == [] then s else Run(cfg, Step(cfg, s, es[0]), es[1..])
  }

  /** A persistent channel as configured. */
  datatype ChannelEntry = ChannelEntry(name: string, passwordHash: Option<string>, maxUsers: nat)

  function GeneralChannel(): Channel {
    Channel("General", 0, 0, false, {}, None, None, None, {}, map[], false)
  }

  function PersistentChannel(e: ChannelEntry): Channel {
    Channel(e.name, e.maxUsers, 0, e.passwordHash.Some?, {}, e.passwordHash, None, None, {}, map[], true)
  }

  /** General and the configured channels, numbered from 1. */
  function InitialChannels(entries: seq<ChannelEntry>): (m: map<ChannelId, Channel>)
    requires |entries| < U32 - 1
    ensures forall c :: c in m <==> 0 <= c <= |entries|
    ensures m[GENERAL] == GeneralChannel()
    ensures forall c :: c in m && c != GENERAL ==> m[c] == PersistentChannel(entries[c - 1])
  {
    if entries == [] then map[GENERAL := GeneralChannel()]
    else
      var n := |entries|;
      InitialChannels(entries[..n - 1])[n := PersistentChannel(entries[n - 1])]
  }

  function Initial(entries: seq<ChannelEntry>): State
    requires |entries| < U32 - 1
  {
    State(map[], map[], map[], map[], InitialChannels(entries), map[], Counters(1, 1, |entries| + 1, 0))
  }
}
