/**
 What holds in every state a server can reach. Membership, delete timers and the UDP cache stay
 consistent in every run, whatever the clients do.
 */
module ServerInvariants {
  import opened Wrappers
  import opened Bytes
  import opened RateLimiting
  import opened ServerModel

  type Sessions = map<SessionId, Session>
  type Users = map<UserId, SessionId>
  type Channels = map<ChannelId, Channel>
  type Timers = map<TimerId, ChannelId>

  // ---------------------------------------------------------------- the invariant

  /** The user index and the sessions agree. */
  ghost predicate UsersOk(sessions: Sessions, users: Users) {
    && (forall sid :: sid in sessions ==> sessions[sid].userId in users && users[sessions[sid].userId] == sid)
    && (forall u :: u in users ==> users[u] in sessions && sessions[users[u]].userId == u)
  }

  /** Each name in use belongs to exactly one session, up to letter case. */
  ghost predicate NamesOk(cfg: Config, sessions: Sessions, names: map<string, SessionId>) {
    && (forall sid :: sid in sessions ==>
          cfg.lower(sessions[sid].username) in names && names[cfg.lower(sessions[sid].username)] == sid)
    && (forall n :: n in names ==> names[n] in sessions && cfg.lower(sessions[names[n]].username) == n)
  }

  /** Timers are told apart: those that are running were drawn before. */
  ghost predicate Numbered(s: State) {
    forall t :: t in s.timers ==> t < s.next.timer
  }

  /** One channel by itself: counted, within capacity, and no timer pending while it is occupied. */
  ghost predicate ChannelOk(c: ChannelId, ch: Channel) {
    && ch.userCount == |ch.members|
    && (ch.maxUsers > 0 ==> |ch.members| <= ch.maxUsers)
    && |ch.invited| <= MAX_INVITES
    && ch.hasPassword == ch.password.Some?
    && (ch.members != {} || ch.persistent || c == GENERAL ==> ch.deleteTimer.None?)
    && (c == GENERAL ==>
          ch.password.None? && !ch.persistent && ch.createdBy.None? && ch.maxUsers == 0 && ch.invited == {})
  }

  ghost predicate ChannelsOk(channels: Channels) {
    GENERAL in channels && forall c :: c in channels ==> ChannelOk(c, channels[c])
  }

  /** Sessions name existing channels. */
  ghost predicate Housed(sessions: Sessions, channels: Channels) {
    forall sid :: sid in sessions ==> sessions[sid].channelId in channels
  }

  /** Members are connected users whose session names that channel, so nobody is in two channels. */
  ghost predicate MembersOk(sessions: Sessions, users: Users, channels: Channels) {
    forall c, u :: c in channels && u in channels[c].members ==>
      u in users && users[u] in sessions && sessions[users[u]].channelId == c
  }

  /** A running timer is the one its channel knows, and a channel's timer is running. */
  ghost predicate TimersOk(timers: Timers, channels: Channels) {
    && (forall t :: t in timers ==> timers[t] in channels && channels[timers[t]].deleteTimer == Some(t))
    && (forall c :: c in channels && channels[c].deleteTimer.Some? ==>
          channels[c].deleteTimer.value in timers && timers[channels[c].deleteTimer.value] == c)
  }

  /** Cached addresses lead to the session bound to them; bound addresses are of the client's host. */
  ghost predicate AddressesOk(sessions: Sessions, addrs: map<Addr, SessionId>) {
    && (forall a :: a in addrs ==> addrs[a] in sessions && sessions[addrs[a]].udpAddr == Some(a))
    && (forall sid :: sid in sessions && sessions[sid].udpAddr.Some? ==>
          sessions[sid].udpAddr.value.ip == sessions[sid].peerIp)
  }

  ghost predicate Core(cfg: Config, s: State) {
    && UsersOk(s.sessions, s.userToSession)
    && NamesOk(cfg, s.sessions, s.nameToSession)
    && Numbered(s)
    && ChannelsOk(s.channels)
    && Housed(s.sessions, s.channels)
    && MembersOk(s.sessions, s.userToSession, s.channels)
    && TimersOk(s.timers, s.channels)
    && AddressesOk(s.sessions, s.addrToSession)
    && |s.addrToSession| <= CacheCap(cfg)
  }

  /** Whoever's session names a channel other than General is a member of it, `except` aside. */
  ghost predicate Seated(sessions: Sessions, channels: Channels, except: set<SessionId>) {
    forall sid :: sid in sessions && sid !in except && sessions[sid].channelId != GENERAL ==>
      sessions[sid].channelId in channels && sessions[sid].userId in channels[sessions[sid].channelId].members
  }

  ghost predicate Invariant(cfg: Config, s: State) {
    Core(cfg, s) && Seated(s.sessions, s.channels, {})
  }

  /** uid is the user of session sid. */
  ghost predicate Owns(s: State, uid: UserId, sid: SessionId) {
    sid in s.sessions && s.sessions[sid].userId == uid
  }

  // ---------------------------------------------------------------- framing

  /** The same sessions up to what they share, watch, or have left in their password bucket. */
  ghost predicate SessionsAlike(a: Sessions, b: Sessions) {
    && a.Keys == b.Keys
    && (forall sid :: sid in a ==> Alike(a[sid], b[sid]))
  }

  ghost predicate Alike(x: Session, y: Session) {
    && y.userId == x.userId && y.username == x.username && y.channelId == x.channelId
    && y.udpAddr == x.udpAddr && y.peerIp == x.peerIp && y.udpToken == x.udpToken
  }

  /** The same channels up to their screen shares. */
  ghost predicate ChannelsAlike(a: Channels, b: Channels) {
    && a.Keys == b.Keys
    && (forall c :: c in a ==> b[c] == a[c].(shares := b[c].shares))
  }

  /** Two states with the same users in the same channels, whatever they share or watch. */
  ghost predicate SameSeats(s: State, s': State) {
    && SessionsAlike(s.sessions, s'.sessions)
    && ChannelsAlike(s.channels, s'.channels)
    && s'.userToSession == s.userToSession && s'.nameToSession == s.nameToSession
    && s'.addrToSession == s.addrToSession && s'.timers == s.timers
    && s'.next == s.next
  }

  lemma AlikeUsers(a: Sessions, b: Sessions, users: Users)
    requires UsersOk(a, users) && SessionsAlike(a, b)
    ensures UsersOk(b, users)
  {
  }

  lemma AlikeNames(cfg: Config, a: Sessions, b: Sessions, names: map<string, SessionId>)
    requires NamesOk(cfg, a, names) && SessionsAlike(a, b)
    ensures NamesOk(cfg, b, names)
  {
  }

  lemma AlikeHoused(a: Sessions, b: Sessions, ch: Channels, ch': Channels)
    requires Housed(a, ch) && SessionsAlike(a, b) && ChannelsAlike(ch, ch')
    ensures Housed(b, ch')
  {
  }

  lemma AlikeMembers(a: Sessions, b: Sessions, users: Users, ch: Channels, ch': Channels)
    requires MembersOk(a, users, ch) && SessionsAlike(a, b) && ChannelsAlike(ch, ch')
    ensures MembersOk(b, users, ch')
  {
  }

  lemma AlikeAddresses(a: Sessions, b: Sessions, addrs: map<Addr, SessionId>)
    requires AddressesOk(a, addrs) && SessionsAlike(a, b)
    ensures AddressesOk(b, addrs)
  {
  }

  lemma AlikeChannels(ch: Channels, ch': Channels, timers: Timers)
    requires ChannelsOk(ch) && TimersOk(timers, ch) && ChannelsAlike(ch, ch')
    ensures ChannelsOk(ch') && TimersOk(timers, ch')
  {
  }

  lemma SameSeatsKeepsCore(cfg: Config, s: State, s': State)
    requires Core(cfg, s) && SameSeats(s, s')
    ensures Core(cfg, s')
  {
    AlikeUsers(s.sessions, s'.sessions, s.userToSession);
    AlikeNames(cfg, s.sessions, s'.sessions, s.nameToSession);
    AlikeHoused(s.sessions, s'.sessions, s.channels, s'.channels);
    AlikeMembers(s.sessions, s'.sessions, s.userToSession, s.channels, s'.channels);
    AlikeAddresses(s.sessions, s'.sessions, s.addrToSession);
    AlikeChannels(s.channels, s'.channels, s.timers);
  }

  lemma SameSeatsKeepsSeated(s: State, s': State, except: set<SessionId>)
    requires Seated(s.sessions, s.channels, except) && SameSeats(s, s')
    ensures Seated(s'.sessions, s'.channels, except)
  {
  }

  lemma SameSeatsKeepsInvariant(cfg: Config, s: State, s': State)
    requires Invariant(cfg, s) && SameSeats(s, s')
    ensures Invariant(cfg, s')
  {
    SameSeatsKeepsCore(cfg, s, s');
    SameSeatsKeepsSeated(s, s', {});
  }

  lemma SameSeatsCompose(s: State, s1: State, s2: State)
    requires SameSeats(s, s1) && SameSeats(s1, s2)
    ensures SameSeats(s, s2)
  {
  }

  // ---------------------------------------------------------------- screen-share steps move nobody

  lemma EditSessionMovesNobody(s: State, sid: SessionId, x: Session)
    requires sid in s.sessions && Alike(s.sessions[sid], x)
    ensures SameSeats(s, WithSession(s, sid, x))
  {
  }

  lemma ChargeMovesNobody(s: State, sid: SessionId, attempt: Option<string>, now: real)
    ensures SameSeats(s, ChargePassword(s, sid, attempt, now))
  {
    if sid in s.sessions && attempt.Some? {
      EditSessionMovesNobody(s, sid, s.sessions[sid].(passwordRate := TryConsume(s.sessions[sid].passwordRate, now).0));
    }
  }

  lemma ChargeCreateMovesNobody(s: State, sid: SessionId, now: real)
    ensures SameSeats(s, ChargeCreate(s, sid, now))
  {
    if sid in s.sessions {
      EditSessionMovesNobody(s, sid, s.sessions[sid].(createRate := TryConsume(s.sessions[sid].createRate, now).0));
    }
  }

  lemma ClearMovesNobody(s: State, users: set<UserId>)
    ensures SameSeats(s, ClearWatching(s, users))
  {
  }

  lemma UnmarkMovesNobody(s: State, sid: SessionId)
    ensures SameSeats(s, Unmark(s, sid))
  {
    if sid in s.sessions {
      EditSessionMovesNobody(s, sid, s.sessions[sid].(sharing := false));
    }
  }

  lemma SetWatchingMovesNobody(s: State, sid: SessionId, sharer: Option<UserId>)
    ensures SameSeats(s, SetWatching(s, sid, sharer))
  {
    if sid in s.sessions {
      EditSessionMovesNobody(s, sid, s.sessions[sid].(watching := sharer));
    }
  }

  lemma EditSharesMovesNobody(s: State, c: ChannelId, shares: map<UserId, Share>)
    requires c in s.channels
    ensures SameSeats(s, WithChannel(s, c, s.channels[c].(shares := shares)))
  {
  }

  lemma RemoveViewerMovesNobody(s: State, viewer: UserId, sharer: UserId, c: ChannelId)
    ensures SameSeats(s, RemoveViewer(s, viewer, sharer, c))
  {
    if c in s.channels && sharer in s.channels[c].shares {
      var share := s.channels[c].shares[sharer];
      EditSharesMovesNobody(s, c, s.channels[c].shares[sharer := share.(viewers := share.viewers - {viewer})]);
    }
  }

  lemma EndShareMovesNobody(s: State, uid: UserId, c: ChannelId)
    ensures SameSeats(s, EndShare(s, uid, c))
  {
    if c in s.channels && uid in s.channels[c].shares {
      var s1 := RemoveShare(s, uid, c);
      EditSharesMovesNobody(s, c, s.channels[c].shares - {uid});
      ClearMovesNobody(s1, s.channels[c].shares[uid].viewers);
      SameSeatsCompose(s, s1, EndShare(s, uid, c));
    }
  }

  lemma StopAsViewerMovesNobody(s: State, uid: UserId, sid: SessionId, c: ChannelId)
    ensures SameSeats(s, StopAsViewer(s, uid, sid, c))
  {
    if sid in s.sessions && s.sessions[sid].watching.Some? {
      var s1 := RemoveViewer(s, uid, s.sessions[sid].watching.value, c);
      RemoveViewerMovesNobody(s, uid, s.sessions[sid].watching.value, c);
      SetWatchingMovesNobody(s1, sid, None);
      SameSeatsCompose(s, s1, SetWatching(s1, sid, None));
    }
  }

  lemma CleanupMovesNobody(s: State, uid: UserId, sid: SessionId, c: ChannelId)
    ensures SameSeats(s, CleanupShares(s, uid, sid, c))
  {
    var s1 := EndShare(s, uid, c);
    var s2 := Unmark(s1, sid);
    EndShareMovesNobody(s, uid, c);
    UnmarkMovesNobody(s1, sid);
    StopAsViewerMovesNobody(s2, uid, sid, c);
    SameSeatsCompose(s, s1, s2);
    SameSeatsCompose(s, s2, StopAsViewer(s2, uid, sid, c));
  }

  lemma StartShareMovesNobody(s: State, uid: UserId, sid: SessionId, c: ChannelId, resolution: int)
    ensures SameSeats(s, StartShare(s, uid, sid, c, resolution))
  {
    if sid in s.sessions {
      var s1 := WithSession(s, sid, s.sessions[sid].(sharing := true));
      EditSessionMovesNobody(s, sid, s.sessions[sid].(sharing := true));
      if c in s.channels {
        var shares := s.channels[c].shares[uid := Share(sid, {}, resolution)];
        EditSharesMovesNobody(s1, c, shares);
        SameSeatsCompose(s, s1, WithChannel(s1, c, s.channels[c].(shares := shares)));
      }
    }
  }

  lemma StopShareMovesNobody(s: State, uid: UserId, sid: SessionId, c: ChannelId)
    ensures SameSeats(s, StopShare(s, uid, sid, c))
  {
    var s1 := Unmark(s, sid);
    UnmarkMovesNobody(s, sid);
    EndShareMovesNobody(s1, uid, c);
    SameSeatsCompose(s, s1, EndShare(s1, uid, c));
  }

  lemma AddViewerMovesNobody(s: State, viewer: UserId, sharer: UserId, c: ChannelId)
    ensures SameSeats(s, AddViewer(s, viewer, sharer, c))
  {
    if ShareRefusal(s, sharer, c).None? {
      var share := s.channels[c].shares[sharer];
      EditSharesMovesNobody(s, c, s.channels[c].shares[sharer := share.(viewers := share.viewers + {viewer})]);
    }
  }

  lemma LeavePreviousMovesNobody(s: State, viewer: UserId, sid: SessionId, sharer: UserId, c: ChannelId)
    ensures SameSeats(s, LeavePrevious(s, viewer, sid, sharer, c))
  {
    if sid in s.sessions && s.sessions[sid].watching.Some? {
      RemoveViewerMovesNobody(s, viewer, s.sessions[sid].watching.value, c);
    }
  }

  lemma WatchMovesNobody(s: State, viewer: UserId, sid: SessionId, sharer: UserId, c: ChannelId)
    ensures SameSeats(s, Watch(s, viewer, sid, sharer, c))
  {
    var s1 := LeavePrevious(s, viewer, sid, sharer, c);
    var s2 := SetWatching(s1, sid, Some(sharer));
    LeavePreviousMovesNobody(s, viewer, sid, sharer, c);
    SetWatchingMovesNobody(s1, sid, Some(sharer));
    AddViewerMovesNobody(s2, viewer, sharer, c);
    SameSeatsCompose(s, s1, s2);
    SameSeatsCompose(s, s2, AddViewer(s2, viewer, sharer, c));
  }

  lemma StopWatchingMovesNobody(s: State, viewer: UserId, sid: SessionId, c: ChannelId)
    ensures SameSeats(s, StopWatching(s, viewer, sid, c))
  {
    if sid in s.sessions && s.sessions[sid].watching.Some? {
      var s1 := SetWatching(s, sid, None);
      SetWatchingMovesNobody(s, sid, None);
      RemoveViewerMovesNobody(s1, viewer, s.sessions[sid].watching.value, c);
      SameSeatsCompose(s, s1, StopWatching(s, viewer, sid, c));
    }
  }

  // ---------------------------------------------------------------- steps that change one channel

  /** Timers only depend on which channel knows which timer. */
  lemma SameTimers(timers: Timers, ch: Channels, ch': Channels)
    requires TimersOk(timers, ch) && ch.Keys == ch'.Keys
    requires forall c :: c in ch ==> ch'[c].deleteTimer == ch[c].deleteTimer
    ensures TimersOk(timers, ch')
  {
  }

  /** Membership only depends on who is where. */
  lemma FewerMembers(sessions: Sessions, users: Users, ch: Channels, ch': Channels)
    requires MembersOk(sessions, users, ch) && Housed(sessions, ch) && ch.Keys == ch'.Keys
    requires forall c :: c in ch ==> ch'[c].members <= ch[c].members
    ensures MembersOk(sessions, users, ch') && Housed(sessions, ch')
  {
  }

  /** Replacing a channel by one with no more members and the same timer. */
  lemma ChannelEditKeepsCore(cfg: Config, s: State, c: ChannelId, ch: Channel)
    requires Core(cfg, s) && c in s.channels && ChannelOk(c, ch)
    requires ch.members <= s.channels[c].members && ch.deleteTimer == s.channels[c].deleteTimer
    ensures Core(cfg, WithChannel(s, c, ch))
  {
    var s' := WithChannel(s, c, ch);
    SameTimers(s.timers, s.channels, s'.channels);
    FewerMembers(s.sessions, s.userToSession, s.channels, s'.channels);
  }

  lemma ChannelEditKeepsSeated(s: State, c: ChannelId, ch: Channel, except: set<SessionId>)
    requires Seated(s.sessions, s.channels, except) && c in s.channels && ch.members == s.channels[c].members
    ensures Seated(s.sessions, WithChannel(s, c, ch).channels, except)
  {
  }

  /** Nobody's channel lists uid. */
  ghost predicate Nowhere(channels: Channels, uid: UserId) {
    forall c :: c in channels ==> uid !in channels[c].members
  }

  lemma SmallerSet(a: set<UserId>, b: set<UserId>)
    requires a <= b
    ensures |a| <= |b|
  {
    assert b == a + (b - a);
    assert |b| == |a| + |b - a|;
  }

  /** Taking members out keeps a channel in order. */
  lemma RemovalKeepsChannelOk(c: ChannelId, ch: Channel, uid: UserId)
    requires ChannelOk(c, ch)
    ensures uid in ch.members ==> ChannelOk(c, Members(ch, ch.members - {uid}))
    ensures uid !in ch.members ==> ChannelOk(c, Members(ch, ch.members - {uid}))
  {
    SmallerSet(ch.members - {uid}, ch.members);
  }

  lemma LeaveKeepsCore(cfg: Config, s: State, uid: UserId, sid: SessionId)
    requires Core(cfg, s)
    ensures Core(cfg, Leave(s, uid, sid))
  {
    if CanLeave(s, uid, sid) {
      var c := s.sessions[sid].channelId;
      RemovalKeepsChannelOk(c, s.channels[c], uid);
      ChannelEditKeepsCore(cfg, s, c, Members(s.channels[c], s.channels[c].members - {uid}));
    }
  }

  lemma LeaveEmptiesSeat(cfg: Config, s: State, uid: UserId, sid: SessionId)
    requires Core(cfg, s) && Owns(s, uid, sid)
    ensures Nowhere(Leave(s, uid, sid).channels, uid)
  {
  }

  lemma LeaveKeepsSeated(cfg: Config, s: State, uid: UserId, sid: SessionId)
    requires UsersOk(s.sessions, s.userToSession) && Seated(s.sessions, s.channels, {}) && Owns(s, uid, sid)
    ensures Seated(Leave(s, uid, sid).sessions, Leave(s, uid, sid).channels, {sid})
  {
  }

  // ---------------------------------------------------------------- delete timers

  lemma TimerTimersOk(s: State, c: ChannelId)
    requires TimersOk(s.timers, s.channels) && c in s.channels && s.next.timer !in s.timers
    ensures TimersOk(StartDeleteTimer(s, c).timers, StartDeleteTimer(s, c).channels)
  {
  }

  lemma TimerKeepsSeats(s: State, c: ChannelId)
    requires c in s.channels
    ensures var s' := StartDeleteTimer(s, c);
            && s.channels.Keys == s'.channels.Keys
            && (forall x :: x in s.channels ==> s'.channels[x].members == s.channels[x].members)
            && (forall x :: x in s.channels && x != c ==> s'.channels[x] == s.channels[x])
            && (exists t :: s'.channels[c] == s.channels[c].(deleteTimer := t))
            && s' == s.(channels := s'.channels, timers := s'.timers, next := s'.next)
  {
    var s' := StartDeleteTimer(s, c);
    assert s'.channels[c] == s.channels[c].(deleteTimer := s'.channels[c].deleteTimer);
  }

  lemma TimerKeepsNumbered(s: State, c: ChannelId)
    requires Numbered(s) && c in s.channels
    ensures Numbered(StartDeleteTimer(s, c))
  {
    var s' := StartDeleteTimer(s, c);
    assert forall t :: t in s'.timers ==> t in s.timers || t == s.next.timer;
  }

  lemma TimerKeepsChannels(s: State, c: ChannelId)
    requires ChannelsOk(s.channels) && c in s.channels && c != GENERAL && s.channels[c].members == {}
    ensures ChannelsOk(StartDeleteTimer(s, c).channels)
  {
  }

  lemma TimerKeepsCore(cfg: Config, s: State, c: ChannelId)
    requires Core(cfg, s) && c in s.channels && c != GENERAL && s.channels[c].members == {}
    ensures Core(cfg, StartDeleteTimer(s, c))
  {
    TimerTimersOk(s, c);
    TimerKeepsSeats(s, c);
    TimerKeepsNumbered(s, c);
    TimerKeepsChannels(s, c);
    FewerMembers(s.sessions, s.userToSession, s.channels, StartDeleteTimer(s, c).channels);
  }

  lemma TimerKeepsSeated(s: State, c: ChannelId, except: set<SessionId>)
    requires Seated(s.sessions, s.channels, except) && c in s.channels
    ensures Seated(StartDeleteTimer(s, c).sessions, StartDeleteTimer(s, c).channels, except)
  {
    TimerKeepsSeats(s, c);
  }

  // ---------------------------------------------------------------- joining

  lemma AdmitChannelOk(cfg: Config, c: ChannelId, ch: Channel, uid: UserId)
    requires ChannelOk(c, ch) && !IsFull(ch)
    ensures ChannelOk(c, Admit(ch, uid))
  {
    if uid in ch.members {
      assert ch.members + {uid} == ch.members;
    } else {
      assert |ch.members + {uid}| == |ch.members| + 1;
    }
  }

  lemma AdmitTimersOk(timers: Timers, channels: Channels, c: ChannelId, uid: UserId)
    requires TimersOk(timers, channels) && c in channels
    ensures TimersOk(timers - TimerSet(channels[c].deleteTimer), channels[c := Admit(channels[c], uid)])
  {
  }

  /** The seat of one user moves; it must not be seated elsewhere. */
  lemma MoveMembersOk(sessions: Sessions, users: Users, channels: Channels, uid: UserId, sid: SessionId, c: ChannelId)
    requires UsersOk(sessions, users) && MembersOk(sessions, users, channels)
    requires sid in sessions && sessions[sid].userId == uid && c in channels && Nowhere(channels, uid)
    ensures MembersOk(sessions[sid := sessions[sid].(channelId := c)], users, channels[c := Admit(channels[c], uid)])
  {
  }

  lemma MoveSessionsOk(cfg: Config, s: State, sid: SessionId, c: ChannelId)
    requires sid in s.sessions
    requires UsersOk(s.sessions, s.userToSession) && NamesOk(cfg, s.sessions, s.nameToSession)
    requires AddressesOk(s.sessions, s.addrToSession)
    ensures var sessions := s.sessions[sid := s.sessions[sid].(channelId := c)];
            UsersOk(sessions, s.userToSession) && NamesOk(cfg, sessions, s.nameToSession)
            && AddressesOk(sessions, s.addrToSession)
  {
  }

  lemma JoinIs(cfg: Config, s: State, uid: UserId, sid: SessionId, c: ChannelId, attempt: Option<string>)
    requires sid in s.sessions && ValidateJoin(cfg, s, c, attempt, uid).None?
    ensures Join(cfg, s, uid, sid, c, attempt) ==
            s.(sessions := s.sessions[sid := s.sessions[sid].(channelId := c)],
               channels := s.channels[c := Admit(s.channels[c], uid)],
               timers := s.timers - TimerSet(s.channels[c].deleteTimer))
  {
  }

  /** Admitting a user that is in no channel. */
  lemma JoinKeepsCore(cfg: Config, s: State, uid: UserId, sid: SessionId, c: ChannelId, attempt: Option<string>)
    requires Core(cfg, s) && Owns(s, uid, sid) && Nowhere(s.channels, uid)
    requires ValidateJoin(cfg, s, c, attempt, uid).None?
    ensures Core(cfg, Join(cfg, s, uid, sid, c, attempt))
  {
    JoinIs(cfg, s, uid, sid, c, attempt);
    AdmitKeepsChannels(cfg, s.channels, c, uid);
    AdmitTimersOk(s.timers, s.channels, c, uid);
    MoveMembersOk(s.sessions, s.userToSession, s.channels, uid, sid, c);
    MoveSessionsOk(cfg, s, sid, c);
    MoveHoused(s.sessions, s.channels, uid, sid, c);
  }

  lemma AdmitKeepsChannels(cfg: Config, channels: Channels, c: ChannelId, uid: UserId)
    requires ChannelsOk(channels) && c in channels && !IsFull(channels[c])
    ensures ChannelsOk(channels[c := Admit(channels[c], uid)])
  {
    AdmitChannelOk(cfg, c, channels[c], uid);
  }

  lemma MoveHoused(sessions: Sessions, channels: Channels, uid: UserId, sid: SessionId, c: ChannelId)
    requires Housed(sessions, channels) && sid in sessions && c in channels
    ensures Housed(sessions[sid := sessions[sid].(channelId := c)], channels[c := Admit(channels[c], uid)])
  {
  }

  lemma JoinSeats(cfg: Config, s: State, uid: UserId, sid: SessionId, c: ChannelId, attempt: Option<string>)
    requires Seated(s.sessions, s.channels, {sid}) && Owns(s, uid, sid)
    requires ValidateJoin(cfg, s, c, attempt, uid).None?
    ensures var s' := Join(cfg, s, uid, sid, c, attempt); Seated(s'.sessions, s'.channels, {})
  {
    JoinIs(cfg, s, uid, sid, c, attempt);
  }

  // ---------------------------------------------------------------- departing

  /** What admission to a channel depends on is unchanged, and the channel is no fuller. */
  ghost predicate NoHarder(ch: Channels, ch': Channels) {
    && ch'.Keys == ch.Keys
    && forall c :: c in ch ==>
        && ch'[c].invited == ch[c].invited && ch'[c].password == ch[c].password
        && ch'[c].persistent == ch[c].persistent && ch'[c].maxUsers == ch[c].maxUsers
        && ch'[c].members <= ch[c].members
  }

  lemma NoHarderAdmits(cfg: Config, s: State, s': State, c: ChannelId, attempt: Option<string>, uid: UserId)
    requires NoHarder(s.channels, s'.channels) && ValidateJoin(cfg, s, c, attempt, uid).None?
    ensures ValidateJoin(cfg, s', c, attempt, uid).None?
  {
    SmallerSet(s'.channels[c].members, s.channels[c].members);
  }

  lemma NoHarderCompose(a: Channels, b: Channels, c: Channels)
    requires NoHarder(a, b) && NoHarder(b, c)
    ensures NoHarder(a, c)
  {
  }

  /** Everybody but uid is where they were. */
  ghost predicate OthersStay(ch: Channels, ch': Channels, uid: UserId)
    requires ch'.Keys == ch.Keys
  {
    forall c, u :: c in ch && u != uid ==> (u in ch'[c].members <==> u in ch[c].members)
  }

  lemma LeaveAndTimeKeepsCore(cfg: Config, s: State, uid: UserId, sid: SessionId)
    requires Core(cfg, s) && Owns(s, uid, sid)
    ensures Core(cfg, LeaveAndTime(s, uid, sid)) && Nowhere(LeaveAndTime(s, uid, sid).channels, uid)
  {
    var s1 := Leave(s, uid, sid);
    LeaveKeepsCore(cfg, s, uid, sid);
    LeaveEmptiesSeat(cfg, s, uid, sid);
    if CanLeave(s, uid, sid) {
      var c := s.sessions[sid].channelId;
      if s1.channels[c].members == {} && c != GENERAL {
        TimerKeepsCore(cfg, s1, c);
        TimerKeepsSeats(s1, c);
      }
    }
  }

  lemma LeaveAndTimeKeepsSeated(cfg: Config, s: State, uid: UserId, sid: SessionId)
    requires UsersOk(s.sessions, s.userToSession) && Seated(s.sessions, s.channels, {}) && Owns(s, uid, sid)
    ensures Seated(LeaveAndTime(s, uid, sid).sessions, LeaveAndTime(s, uid, sid).channels, {sid})
  {
    LeaveKeepsSeated(cfg, s, uid, sid);
    var s1 := Leave(s, uid, sid);
    if CanLeave(s, uid, sid) {
      TimerKeepsSeated(s1, s.sessions[sid].channelId, {sid});
    }
  }

  /** Only uid moves, nothing becomes harder to join, and shares stay as they are. */
  ghost predicate Local(s: State, s': State, uid: UserId) {
    && NoHarder(s.channels, s'.channels)
    && s' == s.(channels := s'.channels, timers := s'.timers, next := s'.next)
    && OthersStay(s.channels, s'.channels, uid)
    && (forall c :: c in s.channels ==> s'.channels[c].shares == s.channels[c].shares)
  }

  lemma LeaveIsLocal(s: State, uid: UserId, sid: SessionId)
    ensures Local(s, Leave(s, uid, sid), uid)
  {
  }

  lemma TimerIsLocal(s: State, c: ChannelId, uid: UserId)
    requires c in s.channels
    ensures Local(s, StartDeleteTimer(s, c), uid)
  {
    hide StartDeleteTimer;
    TimerKeepsSeats(s, c);
  }

  lemma LocalCompose(s: State, s1: State, s2: State, uid: UserId)
    requires Local(s, s1, uid) && Local(s1, s2, uid)
    ensures Local(s, s2, uid)
  {
  }

  lemma LeaveAndTimeIsLocal(s: State, uid: UserId, sid: SessionId)
    ensures var s' := LeaveAndTime(s, uid, sid);
            && NoHarder(s.channels, s'.channels)
            && s' == s.(channels := s'.channels, timers := s'.timers, next := s'.next)
            && OthersStay(s.channels, s'.channels, uid)
            && (forall c :: c in s.channels ==> s'.channels[c].shares == s.channels[c].shares)
  {
    hide StartDeleteTimer, NoHarder, OthersStay;
    var s1 := Leave(s, uid, sid);
    LeaveIsLocal(s, uid, sid);
    if CanLeave(s, uid, sid) {
      var c := s.sessions[sid].channelId;
      TimerIsLocal(s1, c, uid);
      LocalCompose(s, s1, StartDeleteTimer(s1, c), uid);
    }
  }

  lemma AlikeIsNoHarder(ch: Channels, ch': Channels)
    requires ChannelsAlike(ch, ch')
    ensures NoHarder(ch, ch')
  {
  }

  /** Leaving for another channel: the user is nowhere, everybody else stays, and the target is as open as before. */
  lemma DepartKeepsCore(cfg: Config, s: State, uid: UserId, sid: SessionId, target: ChannelId)
    requires Invariant(cfg, s) && Owns(s, uid, sid)
    ensures var s' := Depart(s, uid, sid, target);
            && Core(cfg, s') && Nowhere(s'.channels, uid) && Seated(s'.sessions, s'.channels, {sid})
            && Owns(s', uid, sid)
            && NoHarder(s.channels, s'.channels) && OthersStay(s.channels, s'.channels, uid)
  {
    hide CleanupShares, LeaveAndTime;
    hide UsersOk, NamesOk, Numbered, Housed, MembersOk, ChannelsOk, TimersOk, AddressesOk, Seated;
    hide SameSeats, Nowhere, NoHarder, OthersStay;
    var c := ChannelOf(s, sid);
    var s1 := if c != target && c != GENERAL then CleanupShares(s, uid, sid, c) else s;
    CleanupMovesNobody(s, uid, sid, c);
    SameSeatsAsItself(s);
    SameSeatsKeepsInvariant(cfg, s, s1);
    SameSeatsOwner(s, s1, uid, sid);
    LeaveAndTimeKeepsCore(cfg, s1, uid, sid);
    LeaveAndTimeKeepsSeated(cfg, s1, uid, sid);
    LeaveAndTimeIsLocal(s1, uid, sid);
    LocalAfterSameSeats(s, s1, LeaveAndTime(s1, uid, sid), uid);
  }

  lemma SameSeatsAsItself(s: State)
    ensures SameSeats(s, s)
  {
  }

  lemma SameSeatsOwner(s: State, s': State, uid: UserId, sid: SessionId)
    requires SameSeats(s, s') && Owns(s, uid, sid)
    ensures Owns(s', uid, sid)
  {
  }

  lemma LocalAfterSameSeats(s: State, s1: State, s2: State, uid: UserId)
    requires SameSeats(s, s1) && NoHarder(s1.channels, s2.channels) && OthersStay(s1.channels, s2.channels, uid)
    ensures NoHarder(s.channels, s2.channels) && OthersStay(s.channels, s2.channels, uid)
  {
  }

  // ---------------------------------------------------------------- the join handler

  /**
   A join that was validated always succeeds: cleaning up and leaving the old channel in between
   cannot close the new one. The handler's fallback is never reached.
   */
  lemma JoinNeverFallsBack(cfg: Config, s: State, uid: UserId, sid: SessionId, c: ChannelId, attempt: Option<string>, now: real)
    requires Invariant(cfg, s) && Owns(s, uid, sid)
    ensures JoinOutcomeOf(cfg, s, uid, sid, c, attempt, now) != Fallback
  {
    if JoinOutcomeOf(cfg, s, uid, sid, c, attempt, now) == Fallback {
      FallbackIs(cfg, s, uid, sid, c, attempt, now);
      ChargeKeepsInvariant(cfg, s, uid, sid, attempt, now);
      StillOpenAfterDepart(cfg, ChargePassword(s, sid, attempt, now), uid, sid, c, attempt);
      assert false;
    }
  }

  lemma FallbackIs(cfg: Config, s: State, uid: UserId, sid: SessionId, c: ChannelId, attempt: Option<string>, now: real)
    requires JoinOutcomeOf(cfg, s, uid, sid, c, attempt, now) == Fallback
    ensures var s0 := ChargePassword(s, sid, attempt, now);
            ValidateJoin(cfg, s0, c, attempt, uid).None? && ValidateJoin(cfg, Depart(s0, uid, sid, c), c, attempt, uid).Some?
  {
  }

  lemma StillOpenAfterDepart(cfg: Config, s: State, uid: UserId, sid: SessionId, c: ChannelId, attempt: Option<string>)
    requires Invariant(cfg, s) && Owns(s, uid, sid) && ValidateJoin(cfg, s, c, attempt, uid).None?
    ensures ValidateJoin(cfg, Depart(s, uid, sid, c), c, attempt, uid).None?
  {
    DepartKeepsCore(cfg, s, uid, sid, c);
    NoHarderAdmits(cfg, s, Depart(s, uid, sid, c), c, attempt, uid);
  }

  /** Charging the rate limiter does not change what admission depends on. */
  lemma ChargeKeepsAdmission(cfg: Config, s: State, sid: SessionId, c: ChannelId, attempt: Option<string>, uid: UserId, now: real)
    ensures ValidateJoin(cfg, ChargePassword(s, sid, attempt, now), c, attempt, uid) == ValidateJoin(cfg, s, c, attempt, uid)
  {
  }

  /** Where everybody is after a join. */
  ghost predicate MovedTo(s: State, s': State, uid: UserId, sid: SessionId, c: ChannelId) {
    && sid in s'.sessions && s'.sessions[sid].channelId == c
    && s'.channels.Keys == s.channels.Keys
    && (forall x :: x in s.channels ==> (uid in s'.channels[x].members <==> x == c))
    && OthersStay(s.channels, s'.channels, uid)
    && (forall x :: x in s.channels ==>
          s'.channels[x].invited == if x == c then s.channels[x].invited - {uid} else s.channels[x].invited)
  }

  /**
   What a join does, exactly: refused or rate-limited it changes at most the password bucket, so an
   unused invitation is kept; otherwise the user ends up in the requested channel and nowhere else,
   everybody else stays put, and exactly the invitation to that channel is used up. It succeeds if and
   only if the rate limiter allows it and validation accepts it.
   */
  lemma JoinIsAllOrNothing(cfg: Config, s: State, uid: UserId, sid: SessionId, c: ChannelId, attempt: Option<string>, now: real)
    requires Invariant(cfg, s) && Owns(s, uid, sid)
    ensures var s' := HandleJoin(cfg, s, uid, sid, c, attempt, now);
            if PasswordAllowed(s, sid, attempt, now) && ValidateJoin(cfg, s, c, attempt, uid).None?
            then JoinOutcomeOf(cfg, s, uid, sid, c, attempt, now) == Joined && MovedTo(s, s', uid, sid, c)
            else s' == ChargePassword(s, sid, attempt, now)
  {
    JoinNeverFallsBack(cfg, s, uid, sid, c, attempt, now);
    ChargeKeepsAdmission(cfg, s, sid, c, attempt, uid, now);
    HandleJoinIs(cfg, s, uid, sid, c, attempt, now);
    if JoinOutcomeOf(cfg, s, uid, sid, c, attempt, now) == Joined {
      var s0 := ChargePassword(s, sid, attempt, now);
      ChargeKeepsInvariant(cfg, s, uid, sid, attempt, now);
      JoinAfterDepart(cfg, s0, uid, sid, c, attempt);
    }
  }

  lemma HandleJoinIs(cfg: Config, s: State, uid: UserId, sid: SessionId, c: ChannelId, attempt: Option<string>, now: real)
    requires JoinOutcomeOf(cfg, s, uid, sid, c, attempt, now) != Fallback
    ensures var s0 := ChargePassword(s, sid, attempt, now);
            if JoinOutcomeOf(cfg, s, uid, sid, c, attempt, now) == Joined
            then HandleJoin(cfg, s, uid, sid, c, attempt, now) == Join(cfg, Depart(s0, uid, sid, c), uid, sid, c, attempt)
                 && ValidateJoin(cfg, s0, c, attempt, uid).None?
            else HandleJoin(cfg, s, uid, sid, c, attempt, now) == s0
  {
  }

  lemma ChargeKeepsInvariant(cfg: Config, s: State, uid: UserId, sid: SessionId, attempt: Option<string>, now: real)
    requires Invariant(cfg, s) && Owns(s, uid, sid)
    ensures var s0 := ChargePassword(s, sid, attempt, now);
            Invariant(cfg, s0) && Owns(s0, uid, sid) && s0.channels == s.channels
  {
    hide Invariant;
    var s0 := ChargePassword(s, sid, attempt, now);
    ChargeMovesNobody(s, sid, attempt, now);
    SameSeatsKeepsInvariant(cfg, s, s0);
  }

  /** Depart, then be admitted. */
  lemma JoinAfterDepart(cfg: Config, s: State, uid: UserId, sid: SessionId, c: ChannelId, attempt: Option<string>)
    requires Invariant(cfg, s) && Owns(s, uid, sid) && ValidateJoin(cfg, s, c, attempt, uid).None?
    ensures var s' := Join(cfg, Depart(s, uid, sid, c), uid, sid, c, attempt);
            Invariant(cfg, s') && MovedTo(s, s', uid, sid, c)
  {
    var s1 := Depart(s, uid, sid, c);
    DepartKeepsCore(cfg, s, uid, sid, c);
    NoHarderAdmits(cfg, s, s1, c, attempt, uid);
    JoinKeepsCore(cfg, s1, uid, sid, c, attempt);
    JoinSeats(cfg, s1, uid, sid, c, attempt);
    JoinIs(cfg, s1, uid, sid, c, attempt);
    AdmittedIs(s, s1, uid, sid, c);
  }

  lemma AdmittedIs(s0: State, s1: State, uid: UserId, sid: SessionId, c: ChannelId)
    requires c in s1.channels && sid in s1.sessions && Nowhere(s1.channels, uid) && NoHarder(s0.channels, s1.channels)
    requires OthersStay(s0.channels, s1.channels, uid)
    ensures MovedTo(s0, s1.(sessions := s1.sessions[sid := s1.sessions[sid].(channelId := c)],
                            channels := s1.channels[c := Admit(s1.channels[c], uid)],
                            timers := s1.timers - TimerSet(s1.channels[c].deleteTimer)), uid, sid, c)
  {
  }

  lemma HandleJoinKeepsInvariant(cfg: Config, s: State, uid: UserId, sid: SessionId, c: ChannelId, attempt: Option<string>, now: real)
    requires Invariant(cfg, s) && Owns(s, uid, sid)
    ensures Invariant(cfg, HandleJoin(cfg, s, uid, sid, c, attempt, now))
  {
    JoinNeverFallsBack(cfg, s, uid, sid, c, attempt, now);
    HandleJoinIs(cfg, s, uid, sid, c, attempt, now);
    ChargeKeepsInvariant(cfg, s, uid, sid, attempt, now);
    if JoinOutcomeOf(cfg, s, uid, sid, c, attempt, now) == Joined {
      JoinAfterDepart(cfg, ChargePassword(s, sid, attempt, now), uid, sid, c, attempt);
    }
  }

  // ---------------------------------------------------------------- the other handlers

  /** A channel creation that gets as far as drawing a channel number. */
  predicate ChannelCreated(cfg: Config, s: State, name: string) {
    NameAccepted(cfg, name) && CreateRefusal(cfg, s, name).None?
  }

  /** A login that gets as far as using the numbers it draws. */
  predicate LoggedIn(cfg: Config, s: State, name: string) {
    |s.sessions| < cfg.maxUsers && cfg.lower(name) !in s.nameToSession
  }

  lemma CreateKeepsInvariant(cfg: Config, s: State, name: string, password: Option<string>, uid: UserId)
    requires Invariant(cfg, s) && (CreateRefusal(cfg, s, name).None? ==> s.next.channel !in s.channels)
    ensures Invariant(cfg, Create(cfg, s, name, password, uid))
  {
    if CreateRefusal(cfg, s, name).None? {
      var c, ch := s.next.channel, NewChannel(name, password, uid);
      NewChannelTimers(s.timers, s.channels, c, ch);
      NewChannelPlaces(s, c, ch);
    }
  }

  lemma NewChannelTimers(timers: Timers, channels: Channels, c: ChannelId, ch: Channel)
    requires c !in channels && ch.deleteTimer.None? && TimersOk(timers, channels)
    ensures TimersOk(timers, channels[c := ch])
  {
  }

  lemma NewChannelPlaces(s: State, c: ChannelId, ch: Channel)
    requires c !in s.channels && ch.members == {} && ChannelOk(c, ch) && ChannelsOk(s.channels)
    requires Housed(s.sessions, s.channels) && MembersOk(s.sessions, s.userToSession, s.channels)
    requires Seated(s.sessions, s.channels, {})
    ensures var channels := s.channels[c := ch];
            && ChannelsOk(channels) && Housed(s.sessions, channels)
            && MembersOk(s.sessions, s.userToSession, channels) && Seated(s.sessions, channels, {})
  {
  }

  lemma HandleCreateKeepsInvariant(cfg: Config, s: State, uid: UserId, sid: SessionId, name: string, password: Option<string>, now: real)
    requires Invariant(cfg, s) && Owns(s, uid, sid)
    requires ChannelCreated(cfg, s, name) ==> s.next.channel !in s.channels
    ensures Invariant(cfg, HandleCreate(cfg, s, uid, sid, name, password, now))
  {
    if NameAccepted(cfg, name) && CreateRefusal(cfg, s, name).None? {
      CreateKeepsInvariant(cfg, s, name, password, uid);
      HandleJoinKeepsInvariant(cfg, Create(cfg, s, name, password, uid), uid, sid, s.next.channel, password, now);
    }
  }

  lemma EditKeepsInvariant(cfg: Config, s: State, c: ChannelId, ch: Channel)
    requires Invariant(cfg, s) && c in s.channels && ChannelOk(c, ch)
    requires ch.members == s.channels[c].members && ch.deleteTimer == s.channels[c].deleteTimer
    ensures Invariant(cfg, WithChannel(s, c, ch))
  {
    ChannelEditKeepsCore(cfg, s, c, ch);
    ChannelEditKeepsSeated(s, c, ch, {});
  }

  lemma RemovalEmptiesSeat(sessions: Sessions, users: Users, channels: Channels, c: ChannelId, uid: UserId)
    requires MembersOk(sessions, users, channels) && c in channels && uid in channels[c].members
    ensures Nowhere(channels[c := Members(channels[c], channels[c].members - {uid})], uid)
  {
    forall x | x in channels && x != c
      ensures uid !in channels[x].members
    {
      assert sessions[users[uid]].channelId == c;
    }
  }

  lemma RemovalUnseats(sessions: Sessions, users: Users, channels: Channels, c: ChannelId, uid: UserId)
    requires UsersOk(sessions, users) && Seated(sessions, channels, {}) && c in channels && uid in users
    ensures Seated(sessions, channels[c := Members(channels[c], channels[c].members - {uid})], {users[uid]})
  {
    var channels' := channels[c := Members(channels[c], channels[c].members - {uid})];
    forall sid | sid in sessions && sid !in {users[uid]} && sessions[sid].channelId != GENERAL
      ensures sessions[sid].channelId in channels' && sessions[sid].userId in channels'[sessions[sid].channelId].members
    {
      assert users[sessions[sid].userId] == sid;
      assert sessions[sid].userId in channels[sessions[sid].channelId].members;
    }
  }

  lemma GeneralIsOpen(cfg: Config, s: State, uid: UserId)
    requires ChannelsOk(s.channels)
    ensures ValidateJoin(cfg, s, GENERAL, None, uid).None?
  {
    assert ChannelOk(GENERAL, s.channels[GENERAL]);
  }

  /** A successful kick leaves the target nowhere, and General always takes it in. */
  lemma KickKeepsCore(cfg: Config, s: State, c: ChannelId, requester: UserId, target: UserId)
    requires Invariant(cfg, s) && KickRefusal(s, c, requester, target).None?
    ensures var s1, sid := Kick(s, c, requester, target), s.userToSession[target];
            && Core(cfg, s1) && Nowhere(s1.channels, target) && Owns(s1, target, sid)
            && Seated(s1.sessions, s1.channels, {sid})
            && ValidateJoin(cfg, s1, GENERAL, None, target).None?
  {
    hide NamesOk, Numbered, Housed, TimersOk, AddressesOk;
    var ch := Members(s.channels[c], s.channels[c].members - {target});
    RemovalKeepsChannelOk(c, s.channels[c], target);
    ChannelEditKeepsCore(cfg, s, c, ch);
    RemovalEmptiesSeat(s.sessions, s.userToSession, s.channels, c, target);
    RemovalUnseats(s.sessions, s.userToSession, s.channels, c, target);
    assert Kick(s, c, requester, target) == WithChannel(s, c, ch);
    GeneralIsOpen(cfg, WithChannel(s, c, ch), target);
  }

  /** A kick is never refused after the target was taken out: every member has a session. */
  lemma KickNeverHalfDone(cfg: Config, s: State, c: ChannelId, requester: UserId, target: UserId)
    requires Invariant(cfg, s)
    ensures KickRefusal(s, c, requester, target) != Some(NoSession)
  {
    hide UsersOk, NamesOk, Numbered, ChannelsOk, Housed, TimersOk, AddressesOk;
  }

  /** The kicked user sits in General. */
  lemma KickedIsInGeneral(cfg: Config, s: State, requester: UserId, c: ChannelId, target: UserId)
    requires Invariant(cfg, s) && KickRefusal(s, c, requester, target).None?
    ensures var s1 := Kick(s, c, requester, target);
            var s2 := Join(cfg, s1, target, s.userToSession[target], GENERAL, None);
            Invariant(cfg, s2) && c in s2.channels && s2.channels[c] == s1.channels[c]
  {
    hide Core, Seated;
    var s1, sid := Kick(s, c, requester, target), s.userToSession[target];
    KickKeepsCore(cfg, s, c, requester, target);
    JoinKeepsCore(cfg, s1, target, sid, GENERAL, None);
    JoinSeats(cfg, s1, target, sid, GENERAL, None);
    JoinIs(cfg, s1, target, sid, GENERAL, None);
  }

  lemma TimerKeepsInvariant(cfg: Config, s: State, c: ChannelId)
    requires Invariant(cfg, s) && c in s.channels && c != GENERAL && s.channels[c].members == {}
    ensures Invariant(cfg, StartDeleteTimer(s, c))
  {
    TimerKeepsCore(cfg, s, c);
    TimerKeepsSeated(s, c, {});
  }

  lemma HandleKickKeepsInvariant(cfg: Config, s: State, requester: UserId, c: ChannelId, target: UserId)
    requires Invariant(cfg, s)
    ensures Invariant(cfg, HandleKick(cfg, s, requester, c, target))
  {
    hide Invariant, Join, StartDeleteTimer;
    KickNeverHalfDone(cfg, s, c, requester, target);
    if KickRefusal(s, c, requester, target).None? {
      KickedIsInGeneral(cfg, s, requester, c, target);
      var s1 := Kick(s, c, requester, target);
      if s1.channels[c].members == {} {
        TimerKeepsInvariant(cfg, Join(cfg, s1, target, s.userToSession[target], GENERAL, None), c);
      }
    }
  }

  lemma RemoveUsers(sessions: Sessions, users: Users, sid: SessionId)
    requires sid in sessions && UsersOk(sessions, users)
    ensures UsersOk(sessions - {sid}, users - {sessions[sid].userId})
  {
  }

  lemma RemoveNames(cfg: Config, sessions: Sessions, names: map<string, SessionId>, sid: SessionId)
    requires sid in sessions && NamesOk(cfg, sessions, names)
    ensures NamesOk(cfg, sessions - {sid}, names - {cfg.lower(sessions[sid].username)})
  {
  }

  function WithoutAddr(addrs: map<Addr, SessionId>, a: Option<Addr>): map<Addr, SessionId> {
    if a.Some? then addrs - {a.value} else addrs
  }

  lemma RemoveAddresses(sessions: Sessions, addrs: map<Addr, SessionId>, sid: SessionId)
    requires sid in sessions && AddressesOk(sessions, addrs)
    ensures AddressesOk(sessions - {sid}, WithoutAddr(addrs, sessions[sid].udpAddr))
  {
  }

  lemma FewerAddresses(m: map<Addr, SessionId>, a: Option<Addr>)
    ensures |WithoutAddr(m, a)| <= |m|
  {
    if a.Some? {
      var m' := m - {a.value};
      if a.value in m {
        assert m'.Keys == m.Keys - {a.value};
        assert |m'.Keys| == |m.Keys| - 1;
      } else {
        assert m' == m;
      }
    }
  }

  lemma RemoveMembers(sessions: Sessions, users: Users, channels: Channels, sid: SessionId)
    requires sid in sessions && UsersOk(sessions, users)
    requires MembersOk(sessions, users, channels) && Housed(sessions, channels)
    requires Nowhere(channels, sessions[sid].userId)
    ensures MembersOk(sessions - {sid}, users - {sessions[sid].userId}, channels)
    ensures Housed(sessions - {sid}, channels)
  {
    forall c, u | c in channels && u in channels[c].members
      ensures u in users - {sessions[sid].userId} && users[u] in sessions - {sid}
    {
      assert u != sessions[sid].userId;
      assert sessions[users[u]].userId == u;
    }
  }

  /** Removing a session whose user is in no channel touches no channel. */
  lemma RemoveSessionIs(cfg: Config, s: State, sid: SessionId)
    requires sid in s.sessions && ChannelsOk(s.channels) && Nowhere(s.channels, s.sessions[sid].userId)
    requires s.sessions[sid].channelId in s.channels
    ensures RemoveSession(cfg, s, sid) ==
            s.(sessions := s.sessions - {sid}, userToSession := s.userToSession - {s.sessions[sid].userId},
               nameToSession := s.nameToSession - {cfg.lower(s.sessions[sid].username)},
               addrToSession := WithoutAddr(s.addrToSession, s.sessions[sid].udpAddr))
  {
    var c, uid := s.sessions[sid].channelId, s.sessions[sid].userId;
    var ch := s.channels[c];
    assert ch.members - {uid} == ch.members;
    assert ChannelOk(c, ch);
    assert Members(ch, ch.members - {uid}) == ch;
    assert s.channels[c := ch] == s.channels;
  }

  lemma RemoveSessionKeepsCore(cfg: Config, s: State, sid: SessionId)
    requires Core(cfg, s) && sid in s.sessions && Nowhere(s.channels, s.sessions[sid].userId)
    ensures Core(cfg, RemoveSession(cfg, s, sid))
    ensures RemoveSession(cfg, s, sid).sessions == s.sessions - {sid}
    ensures RemoveSession(cfg, s, sid).channels == s.channels
  {
    var x := s.sessions[sid];
    RemoveSessionIs(cfg, s, sid);
    RemoveUsers(s.sessions, s.userToSession, sid);
    RemoveNames(cfg, s.sessions, s.nameToSession, sid);
    RemoveAddresses(s.sessions, s.addrToSession, sid);
    FewerAddresses(s.addrToSession, x.udpAddr);
    RemoveMembers(s.sessions, s.userToSession, s.channels, sid);
  }

  lemma DisconnectKeepsInvariant(cfg: Config, s: State, uid: UserId, sid: SessionId)
    requires Invariant(cfg, s) && Owns(s, uid, sid)
    ensures Invariant(cfg, Disconnect(cfg, s, uid, sid))
    ensures sid !in Disconnect(cfg, s, uid, sid).sessions && Nowhere(Disconnect(cfg, s, uid, sid).channels, uid)
  {
    hide CleanupShares, LeaveAndTime, RemoveSession;
    var c := ChannelOf(s, sid);
    var s1 := if c != GENERAL then CleanupShares(s, uid, sid, c) else s;
    CleanupMovesNobody(s, uid, sid, c);
    hide UsersOk, NamesOk, Numbered, Housed, MembersOk, ChannelsOk, TimersOk, AddressesOk, Seated;
    SameSeatsKeepsInvariant(cfg, s, s1);
    var s2 := LeaveAndTime(s1, uid, sid);
    LeaveAndTimeKeepsCore(cfg, s1, uid, sid);
    LeaveAndTimeKeepsSeated(cfg, s1, uid, sid);
    LeaveAndTimeIsLocal(s1, uid, sid);
    RemoveSessionKeepsCore(cfg, s2, sid);
    SeatedWithout(s2.sessions, s2.channels, sid);
  }

  lemma SeatedWithout(sessions: Sessions, channels: Channels, sid: SessionId)
    requires Seated(sessions, channels, {sid})
    ensures Seated(sessions - {sid}, channels, {})
  {
  }

  /** A timer only ever fires on an empty, deletable channel that no session names. */
  lemma TimerFindsEmptyChannel(cfg: Config, s: State, t: TimerId)
    requires Invariant(cfg, s) && t in s.timers
    ensures DeleteRefusal(s.(timers := s.timers - {t}), s.timers[t]).None?
    ensures forall sid :: sid in s.sessions ==> s.sessions[sid].channelId != s.timers[t]
  {
    var c := s.timers[t];
    assert ChannelOk(c, s.channels[c]);
  }

  lemma FireKeepsTimers(timers: Timers, channels: Channels, t: TimerId)
    requires TimersOk(timers, channels) && t in timers
    ensures TimersOk(timers - {t}, channels - {timers[t]})
  {
  }

  lemma FireTimerKeepsInvariant(cfg: Config, s: State, t: TimerId)
    requires Invariant(cfg, s)
    ensures Invariant(cfg, FireTimer(s, t))
  {
    if t in s.timers {
      var c := s.timers[t];
      TimerFindsEmptyChannel(cfg, s, t);
      FireKeepsTimers(s.timers, s.channels, t);
      assert s.timers - {t} - TimerSet(s.channels[c].deleteTimer) == s.timers - {t};
      FireKeepsPlaces(s, c);
    }
  }

  lemma FireKeepsPlaces(s: State, c: ChannelId)
    requires forall sid :: sid in s.sessions ==> s.sessions[sid].channelId != c
    requires Housed(s.sessions, s.channels) && MembersOk(s.sessions, s.userToSession, s.channels)
    requires Seated(s.sessions, s.channels, {}) && ChannelsOk(s.channels) && c != GENERAL
    ensures Housed(s.sessions, s.channels - {c}) && MembersOk(s.sessions, s.userToSession, s.channels - {c})
    ensures Seated(s.sessions, s.channels - {c}, {}) && ChannelsOk(s.channels - {c})
  {
  }

  lemma LoginKeepsInvariant(cfg: Config, s: State, name: string, token: int, ip: int, now: real)
    requires Invariant(cfg, s)
    requires LoggedIn(cfg, s, name) ==> s.next.user !in s.userToSession && s.next.session !in s.sessions
    ensures Invariant(cfg, Login(cfg, s, name, token, ip, now))
  {
    if |s.sessions| < cfg.maxUsers {
      if cfg.lower(name) !in s.nameToSession {
        var x := Session(s.next.user, name, GENERAL, false, None, None, token, ip,
                         NewBucket(3.0, 1.0, now), NewBucket(1.0, 0.2, now));
        LoginUsers(s.sessions, s.userToSession, s.next.session, x);
        LoginNames(cfg, s.sessions, s.nameToSession, s.next.session, x);
        LoginAddresses(s.sessions, s.addrToSession, s.next.session, x);
        LoginPlaces(s.sessions, s.userToSession, s.channels, s.next.session, x);
      }
    }
  }

  lemma LoginUsers(sessions: Sessions, users: Users, sid: SessionId, x: Session)
    requires UsersOk(sessions, users) && sid !in sessions && x.userId !in users
    ensures UsersOk(sessions[sid := x], users[x.userId := sid])
  {
  }

  lemma LoginNames(cfg: Config, sessions: Sessions, names: map<string, SessionId>, sid: SessionId, x: Session)
    requires NamesOk(cfg, sessions, names) && sid !in sessions && cfg.lower(x.username) !in names
    ensures NamesOk(cfg, sessions[sid := x], names[cfg.lower(x.username) := sid])
  {
  }

  lemma LoginAddresses(sessions: Sessions, addrs: map<Addr, SessionId>, sid: SessionId, x: Session)
    requires AddressesOk(sessions, addrs) && sid !in sessions && x.udpAddr.None?
    ensures AddressesOk(sessions[sid := x], addrs)
  {
  }

  lemma LoginPlaces(sessions: Sessions, users: Users, channels: Channels, sid: SessionId, x: Session)
    requires Housed(sessions, channels) && MembersOk(sessions, users, channels) && Seated(sessions, channels, {})
    requires GENERAL in channels && sid !in sessions && x.userId !in users && x.channelId == GENERAL
    ensures Housed(sessions[sid := x], channels) && MembersOk(sessions[sid := x], users[x.userId := sid], channels)
    ensures Seated(sessions[sid := x], channels, {})
  {
  }
}
