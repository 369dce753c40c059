/**
 Users, sessions and channels are numbered by 32-bit counters that wrap around. Here is what becomes of
 the invariant when a number is drawn: for logins and for channel creations the exact condition.
 */
module ServerNumbers {
  import opened Wrappers
  import opened Bytes
  import opened RateLimiting
  import opened ServerModel
  import opened ServerInvariants

  // ---------------------------------------------------------------- logins

  /**
   A login keeps the two user indexes consistent if and only if the numbers drawn are both free, or both
   belonged to one old session, which is then replaced.
   */
  lemma LoginKeepsUsersIff(cfg: Config, s: State, name: string, token: int, ip: int, now: real)
    requires UsersOk(s.sessions, s.userToSession)
    requires |s.sessions| < cfg.maxUsers && cfg.lower(name) !in s.nameToSession
    ensures var s' := Login(cfg, s, name, token, ip, now);
            UsersOk(s'.sessions, s'.userToSession) <==>
            || (s.next.user !in s.userToSession && s.next.session !in s.sessions)
            || (s.next.user in s.userToSession && s.userToSession[s.next.user] == s.next.session)
  {
    hide NewBucket;
    var s' := Login(cfg, s, name, token, ip, now);
    var uid, sid := s.next.user, s.next.session;
    if uid in s.userToSession && s.userToSession[uid] != sid {
      var former := s.userToSession[uid];
      assert former in s'.sessions && s'.sessions[former].userId == uid && s'.userToSession[uid] == sid;
    } else if uid !in s.userToSession && sid in s.sessions {
      var u := s.sessions[sid].userId;
      assert u in s'.userToSession && s'.userToSession[u] == sid && s'.sessions[sid].userId == uid;
    }
  }

  /**
   A login keeps the invariant if and only if both numbers drawn are free: where it replaces an old
   session, that session's name still leads to it.
   */
  lemma LoginKeepsInvariantIff(cfg: Config, s: State, name: string, token: int, ip: int, now: real)
    requires Invariant(cfg, s) && LoggedIn(cfg, s, name)
    ensures Invariant(cfg, Login(cfg, s, name, token, ip, now)) <==>
            s.next.user !in s.userToSession && s.next.session !in s.sessions
  {
    hide UsersOk, NamesOk, Numbered, Housed, MembersOk, TimersOk, AddressesOk, ChannelsOk, Seated, Login;
    if s.next.user !in s.userToSession && s.next.session !in s.sessions {
      LoginKeepsInvariant(cfg, s, name, token, ip, now);
    } else {
      LoginWithNumberInUse(cfg, s, name, token, ip, now);
    }
  }

  lemma LoginWithNumberInUse(cfg: Config, s: State, name: string, token: int, ip: int, now: real)
    requires UsersOk(s.sessions, s.userToSession) && NamesOk(cfg, s.sessions, s.nameToSession)
    requires LoggedIn(cfg, s, name) && (s.next.user in s.userToSession || s.next.session in s.sessions)
    ensures var s' := Login(cfg, s, name, token, ip, now);
            !UsersOk(s'.sessions, s'.userToSession) || !NamesOk(cfg, s'.sessions, s'.nameToSession)
  {
    hide NewBucket;
    var s', sid := Login(cfg, s, name, token, ip, now), s.next.session;
    LoginKeepsUsersIff(cfg, s, name, token, ip, now);
    if s.next.user in s.userToSession && s.userToSession[s.next.user] == sid {
      var former := cfg.lower(s.sessions[sid].username);
      assert former in s'.nameToSession && s'.nameToSession[former] == sid && s'.sessions[sid].username == name;
    }
  }

  // ---------------------------------------------------------------- channel creations

  /**
   The channel that has the number drawn next can be replaced without harm: it is not General, has no
   delete timer running, and nobody is in it, or only the creator, who is let into the new one.
   */
  predicate Replaceable(s: State, uid: UserId, sid: SessionId, c: ChannelId, password: Option<string>, now: real)
    requires c in s.channels
  {
    && c != GENERAL
    && s.channels[c].deleteTimer.None?
    && (s.channels[c].members == {} || (s.channels[c].members == {uid} && PasswordAllowed(s, sid, password, now)))
  }

  /** A channel just created admits its creator with the password it was created with. */
  lemma NewChannelAdmitsCreator(cfg: Config, s: State, name: string, password: Option<string>, uid: UserId)
    requires CreateRefusal(cfg, s, name).None?
    ensures ValidateJoin(cfg, Create(cfg, s, name, password, uid), s.next.channel, password, uid).None?
  {
    hide CreateRefusal;
  }

  /** The channel just created, in the place of whatever had its number. */
  function Created(s: State, name: string, password: Option<string>, uid: UserId): State {
    var c := s.next.channel;
    WithChannel(s, c, NewChannel(name, password, uid)).(next := s.next.(channel := Next(c)))
  }

  /** The state after a creation that was not refused. */
  function AfterCreation(cfg: Config, s: State, name: string, password: Option<string>, uid: UserId, sid: SessionId, now: real): State {
    HandleJoin(cfg, Created(s, name, password, uid), uid, sid, s.next.channel, password, now)
  }

  /** What the joining of one user leaves alone, whatever state it starts from. */
  ghost predicate Beside(s: State, s': State, uid: UserId, sid: SessionId) {
    && s'.channels.Keys == s.channels.Keys
    && (forall x :: x in s.channels ==> s'.channels[x].createdBy == s.channels[x].createdBy)
    && (forall x, v :: x in s.channels && v != uid ==> (v in s'.channels[x].members <==> v in s.channels[x].members))
    && s'.sessions.Keys == s.sessions.Keys
    && (forall x :: x in s.sessions ==>
          s'.sessions[x].userId == s.sessions[x].userId && (x != sid ==> s'.sessions[x].channelId == s.sessions[x].channelId))
  }

  lemma BesideCompose(s: State, s1: State, s2: State, uid: UserId, sid: SessionId)
    requires Beside(s, s1, uid, sid) && Beside(s1, s2, uid, sid)
    ensures Beside(s, s2, uid, sid)
  {
  }

  lemma SameSeatsIsBeside(s: State, s': State, uid: UserId, sid: SessionId)
    requires SameSeats(s, s')
    ensures Beside(s, s', uid, sid)
  {
  }

  lemma LeaveIsBeside(s: State, uid: UserId, sid: SessionId)
    ensures Beside(s, Leave(s, uid, sid), uid, sid)
  {
  }

  lemma TimerIsBeside(s: State, c: ChannelId, uid: UserId, sid: SessionId)
    requires c in s.channels
    ensures Beside(s, StartDeleteTimer(s, c), uid, sid)
  {
    hide StartDeleteTimer;
    TimerKeepsSeats(s, c);
  }

  lemma LeaveAndTimeIsBeside(s: State, uid: UserId, sid: SessionId)
    ensures Beside(s, LeaveAndTime(s, uid, sid), uid, sid)
  {
    hide StartDeleteTimer, Beside;
    var s1 := Leave(s, uid, sid);
    LeaveIsBeside(s, uid, sid);
    if CanLeave(s, uid, sid) {
      var c := s.sessions[sid].channelId;
      TimerIsBeside(s1, c, uid, sid);
      BesideCompose(s, s1, StartDeleteTimer(s1, c), uid, sid);
    }
  }

  /** The state from which a user departs: with its shares cleaned up if it goes elsewhere. */
  function Cleaned(s: State, uid: UserId, sid: SessionId, target: ChannelId): State {
    var c := ChannelOf(s, sid);
    if c != target && c != GENERAL then CleanupShares(s, uid, sid, c) else s
  }

  lemma CleanedMovesNobody(s: State, uid: UserId, sid: SessionId, target: ChannelId)
    ensures SameSeats(s, Cleaned(s, uid, sid, target))
    ensures Depart(s, uid, sid, target) == LeaveAndTime(Cleaned(s, uid, sid, target), uid, sid)
  {
    hide CleanupShares, LeaveAndTime;
    CleanupMovesNobody(s, uid, sid, ChannelOf(s, sid));
    SameSeatsAsItself(s);
  }

  lemma DepartIsBeside(s: State, uid: UserId, sid: SessionId, target: ChannelId)
    ensures Beside(s, Depart(s, uid, sid, target), uid, sid)
    ensures NoHarder(s.channels, Depart(s, uid, sid, target).channels)
  {
    hide LeaveAndTime, Cleaned, Depart, SameSeats, Beside, NoHarder;
    var s1 := Cleaned(s, uid, sid, target);
    CleanedMovesNobody(s, uid, sid, target);
    SameSeatsIsBeside(s, s1, uid, sid);
    SameSeatsIsNoHarder(s, s1);
    LeaveAndTimeIsBeside(s1, uid, sid);
    LeaveAndTimeIsLocal(s1, uid, sid);
    BesideCompose(s, s1, LeaveAndTime(s1, uid, sid), uid, sid);
    NoHarderCompose(s.channels, s1.channels, LeaveAndTime(s1, uid, sid).channels);
  }

  lemma SameSeatsIsNoHarder(s: State, s': State)
    requires SameSeats(s, s')
    ensures NoHarder(s.channels, s'.channels)
  {
    AlikeIsNoHarder(s.channels, s'.channels);
  }

  lemma PutInIsBeside(s: State, uid: UserId, sid: SessionId, c: ChannelId)
    requires c in s.channels
    ensures Beside(s, PutIn(s, uid, sid, c), uid, sid)
  {
  }

  /** A creator whom the rate limiter lets pass departs and is put in; otherwise only the bucket changes. */
  lemma CreatorJoins(cfg: Config, s: State, uid: UserId, sid: SessionId, c: ChannelId, password: Option<string>, now: real)
    requires ValidateJoin(cfg, s, c, password, uid).None?
    ensures var s0 := ChargePassword(s, sid, password, now);
            var s1 := Depart(s0, uid, sid, c);
            && c in s1.channels
            && (HandleJoin(cfg, s, uid, sid, c, password, now)
                == if PasswordAllowed(s, sid, password, now) then PutIn(s1, uid, sid, c) else s0)
  {
    hide Depart, ChargePassword, PasswordAllowed, PutIn, Beside;
    var s0 := ChargePassword(s, sid, password, now);
    var s1 := Depart(s0, uid, sid, c);
    ChargeKeepsAdmission(cfg, s, sid, c, password, uid, now);
    DepartIsBeside(s0, uid, sid, c);
    NoHarderAdmits(cfg, s0, s1, c, password, uid);
    hide NoHarder;
    AdmittedExists(cfg, s1, c, password, uid);
    PutInIs(cfg, s1, uid, sid, c, password);
  }

  lemma AdmittedExists(cfg: Config, s: State, c: ChannelId, attempt: Option<string>, uid: UserId)
    requires ValidateJoin(cfg, s, c, attempt, uid).None?
    ensures c in s.channels
  {
  }

  lemma PutInIs(cfg: Config, s: State, uid: UserId, sid: SessionId, c: ChannelId, attempt: Option<string>)
    requires c in s.channels && ValidateJoin(cfg, s, c, attempt, uid).None?
    ensures Join(cfg, s, uid, sid, c, attempt) == PutIn(s, uid, sid, c)
  {
    hide PutIn;
  }

  lemma HandleJoinIsBeside(cfg: Config, s: State, uid: UserId, sid: SessionId, c: ChannelId, password: Option<string>, now: real)
    requires ValidateJoin(cfg, s, c, password, uid).None?
    ensures Beside(s, HandleJoin(cfg, s, uid, sid, c, password, now), uid, sid)
  {
    hide Depart, PutIn, Beside, SameSeats, ValidateJoin, HandleJoin, ChargePassword;
    var s0 := ChargePassword(s, sid, password, now);
    var s1 := Depart(s0, uid, sid, c);
    CreatorJoins(cfg, s, uid, sid, c, password, now);
    ChargeMovesNobody(s, sid, password, now);
    SameSeatsIsBeside(s, s0, uid, sid);
    DepartIsBeside(s0, uid, sid, c);
    PutInIsBeside(s1, uid, sid, c);
    BesideCompose(s, s0, s1, uid, sid);
    BesideCompose(s, s1, PutIn(s1, uid, sid, c), uid, sid);
  }

  // ----- a timer whose channel was replaced -----

  /** A running timer that no channel knows of, its own included. */
  ghost predicate Orphan(s: State, t: TimerId, c: ChannelId) {
    && t in s.timers && s.timers[t] == c && t < s.next.timer
    && c in s.channels
    && forall x :: x in s.channels ==> s.channels[x].deleteTimer != Some(t)
  }

  lemma OrphanBreaks(s: State, t: TimerId, c: ChannelId)
    requires Orphan(s, t, c)
    ensures !TimersOk(s.timers, s.channels)
  {
  }

  lemma SameSeatsOrphan(s: State, s': State, t: TimerId, c: ChannelId)
    requires SameSeats(s, s') && Orphan(s, t, c)
    ensures Orphan(s', t, c)
  {
  }

  lemma LeaveOrphan(s: State, uid: UserId, sid: SessionId, t: TimerId, c: ChannelId)
    requires Orphan(s, t, c)
    ensures Orphan(Leave(s, uid, sid), t, c)
  {
  }

  lemma TimerOrphan(s: State, x: ChannelId, t: TimerId, c: ChannelId)
    requires Orphan(s, t, c) && x in s.channels
    ensures Orphan(StartDeleteTimer(s, x), t, c)
  {
  }

  lemma PutInOrphan(s: State, uid: UserId, sid: SessionId, x: ChannelId, t: TimerId, c: ChannelId)
    requires Orphan(s, t, c) && x in s.channels
    ensures Orphan(PutIn(s, uid, sid, x), t, c)
  {
  }

  lemma DepartOrphan(s: State, uid: UserId, sid: SessionId, target: ChannelId, t: TimerId, c: ChannelId)
    requires Orphan(s, t, c)
    ensures Orphan(Depart(s, uid, sid, target), t, c)
  {
    hide Cleaned, Depart, SameSeats, Orphan, StartDeleteTimer;
    var s1 := Cleaned(s, uid, sid, target);
    CleanedMovesNobody(s, uid, sid, target);
    SameSeatsOrphan(s, s1, t, c);
    LeaveOrphan(s1, uid, sid, t, c);
    if CanLeave(s1, uid, sid) {
      TimerOrphan(Leave(s1, uid, sid), s1.sessions[sid].channelId, t, c);
    }
  }

  lemma HandleJoinOrphan(cfg: Config, s: State, uid: UserId, sid: SessionId, x: ChannelId, password: Option<string>, now: real,
                         t: TimerId, c: ChannelId)
    requires ValidateJoin(cfg, s, x, password, uid).None? && Orphan(s, t, c)
    ensures Orphan(HandleJoin(cfg, s, uid, sid, x, password, now), t, c)
  {
    hide Depart, PutIn, Orphan, SameSeats, ValidateJoin, HandleJoin, ChargePassword;
    var s0 := ChargePassword(s, sid, password, now);
    CreatorJoins(cfg, s, uid, sid, x, password, now);
    ChargeMovesNobody(s, sid, password, now);
    SameSeatsOrphan(s, s0, t, c);
    DepartOrphan(s0, uid, sid, x, t, c);
    PutInOrphan(Depart(s0, uid, sid, x), uid, sid, x, t, c);
  }

  // ----- the cases of a creation whose number is in use -----

  lemma ReplacedGeneral(cfg: Config, s: State, s': State, name: string, password: Option<string>, uid: UserId, sid: SessionId)
    requires s.next.channel == GENERAL && Beside(Created(s, name, password, uid), s', uid, sid)
    ensures !ChannelsOk(s'.channels)
  {
    assert GENERAL in s'.channels && !ChannelOk(GENERAL, s'.channels[GENERAL]);
  }

  lemma ReplacedTimed(cfg: Config, s: State, name: string, password: Option<string>, uid: UserId)
    requires TimersOk(s.timers, s.channels) && Numbered(s)
    requires s.next.channel in s.channels && s.channels[s.next.channel].deleteTimer.Some?
    ensures Orphan(Created(s, name, password, uid), s.channels[s.next.channel].deleteTimer.value, s.next.channel)
  {
    var c, s1 := s.next.channel, Created(s, name, password, uid);
    var t := s.channels[c].deleteTimer.value;
    forall x | x in s1.channels
      ensures s1.channels[x].deleteTimer != Some(t)
    {
      assert x != c ==> s1.channels[x] == s.channels[x];
    }
  }

  lemma ReplacedOthers(cfg: Config, s: State, s': State, name: string, password: Option<string>, uid: UserId, sid: SessionId, v: UserId)
    requires UsersOk(s.sessions, s.userToSession) && MembersOk(s.sessions, s.userToSession, s.channels) && Owns(s, uid, sid)
    requires s.next.channel in s.channels && s.next.channel != GENERAL
    requires v in s.channels[s.next.channel].members && v != uid
    requires Beside(Created(s, name, password, uid), s', uid, sid)
    ensures !Seated(s'.sessions, s'.channels, {})
  {
    var c, x := s.next.channel, s.userToSession[v];
    assert x != sid && s.sessions[x].channelId == c;
    assert s'.sessions[x].channelId == c && s'.sessions[x].userId == v;
    assert v !in Created(s, name, password, uid).channels[c].members;
    assert v !in s'.channels[c].members;
  }

  lemma ReplacedUnderCreator(cfg: Config, s: State, name: string, password: Option<string>, uid: UserId, sid: SessionId, now: real)
    requires UsersOk(s.sessions, s.userToSession) && MembersOk(s.sessions, s.userToSession, s.channels) && Owns(s, uid, sid)
    requires s.next.channel in s.channels && s.next.channel != GENERAL && uid in s.channels[s.next.channel].members
    ensures var s0 := ChargePassword(Created(s, name, password, uid), sid, password, now);
            !Seated(s0.sessions, s0.channels, {})
  {
    hide TryConsume;
    var c := s.next.channel;
    var s0 := ChargePassword(Created(s, name, password, uid), sid, password, now);
    assert s.userToSession[uid] == sid && s.sessions[sid].channelId == c;
    assert s0.sessions[sid].channelId == c && s0.sessions[sid].userId == uid && uid !in s0.channels[c].members;
  }

  lemma EmptiedKeepsCore(cfg: Config, s: State, name: string, password: Option<string>, uid: UserId, sid: SessionId)
    requires Invariant(cfg, s) && Owns(s, uid, sid)
    requires s.next.channel in s.channels && s.next.channel != GENERAL && s.channels[s.next.channel].members == {uid}
    ensures var s1 := Created(s, name, password, uid);
            && Core(cfg, s1) && Seated(s1.sessions, s1.channels, {sid}) && Nowhere(s1.channels, uid) && Owns(s1, uid, sid)
            && s1.sessions[sid].channelId == s.next.channel && s1.channels[s.next.channel].members == {}
  {
    var c, ch := s.next.channel, NewChannel(name, password, uid);
    assert ChannelOk(c, s.channels[c]);
    ChannelEditKeepsCore(cfg, s, c, ch);
    NextChannelKeepsCore(cfg, WithChannel(s, c, ch), Next(c));
    EmptiedSeats(s, c, ch, uid, sid);
  }

  lemma NextChannelKeepsCore(cfg: Config, s: State, n: ChannelId)
    requires Core(cfg, s)
    ensures Core(cfg, s.(next := s.next.(channel := n)))
  {
  }

  lemma EmptiedSeats(s: State, c: ChannelId, ch: Channel, uid: UserId, sid: SessionId)
    requires UsersOk(s.sessions, s.userToSession) && MembersOk(s.sessions, s.userToSession, s.channels)
    requires Seated(s.sessions, s.channels, {}) && Owns(s, uid, sid)
    requires c in s.channels && c != GENERAL && s.channels[c].members == {uid} && ch.members == {}
    ensures var channels := s.channels[c := ch];
            && Seated(s.sessions, channels, {sid}) && Nowhere(channels, uid) && s.sessions[sid].channelId == c
  {
    assert s.userToSession[uid] == sid;
    assert forall x :: x in s.sessions && s.sessions[x].userId == uid ==> x == sid;
  }

  lemma DepartFromEmptied(s: State, uid: UserId, sid: SessionId, c: ChannelId)
    requires sid in s.sessions && s.sessions[sid].channelId == c && c in s.channels && uid !in s.channels[c].members
    ensures Depart(s, uid, sid, c) == s
  {
  }

  /** A creator alone in the channel that it replaces, and let pass, is put back where its session says it is. */
  lemma OwnerIsPutBack(cfg: Config, s: State, name: string, password: Option<string>, uid: UserId, sid: SessionId, now: real)
    requires Invariant(cfg, s) && Owns(s, uid, sid) && CreateRefusal(cfg, s, name).None?
    requires s.next.channel in s.channels && s.next.channel != GENERAL && s.channels[s.next.channel].members == {uid}
    requires PasswordAllowed(s, sid, password, now)
    ensures var s0 := ChargePassword(Created(s, name, password, uid), sid, password, now);
            && s.next.channel in s0.channels
            && AfterCreation(cfg, s, name, password, uid, sid, now) == PutIn(s0, uid, sid, s.next.channel)
  {
    var c, s1 := s.next.channel, Created(s, name, password, uid);
    EmptiedKeepsCore(cfg, s, name, password, uid, sid);
    NewChannelAdmitsCreator(cfg, s, name, password, uid);
    CreatorJoins(cfg, s1, uid, sid, c, password, now);
    DepartFromEmptied(ChargePassword(s1, sid, password, now), uid, sid, c);
  }

  /** Replacing a channel in which only the creator was, whom the rate limiter lets pass. */
  lemma ReplacedByItsOwner(cfg: Config, s: State, name: string, password: Option<string>, uid: UserId, sid: SessionId, now: real)
    requires Invariant(cfg, s) && Owns(s, uid, sid) && CreateRefusal(cfg, s, name).None?
    requires s.next.channel in s.channels && s.next.channel != GENERAL && s.channels[s.next.channel].members == {uid}
    requires PasswordAllowed(s, sid, password, now)
    ensures Invariant(cfg, AfterCreation(cfg, s, name, password, uid, sid, now))
  {
    hide PutIn, HandleJoin, ValidateJoin, CreateRefusal, Owns;
    var c, s1 := s.next.channel, Created(s, name, password, uid);
    var s0 := ChargePassword(s1, sid, password, now);
    OwnerIsPutBack(cfg, s, name, password, uid, sid, now);
    EmptiedKeepsCore(cfg, s, name, password, uid, sid);
    NewChannelAdmitsCreator(cfg, s, name, password, uid);
    ChargeMovesNobody(s1, sid, password, now);
    SameSeatsKeepsCore(cfg, s1, s0);
    SameSeatsKeepsSeated(s1, s0, {sid});
    ChargeKeepsAdmission(cfg, s1, sid, c, password, uid, now);
    hide Core, Seated, SameSeats, ChargePassword, Created;
    JoinKeepsCore(cfg, s0, uid, sid, c, password);
    JoinSeats(cfg, s0, uid, sid, c, password);
    PutInIs(cfg, s0, uid, sid, c, password);
  }

  /** Replacing a channel in which nobody is. */
  lemma ReplacedEmpty(cfg: Config, s: State, name: string, password: Option<string>, uid: UserId)
    requires Invariant(cfg, s)
    requires s.next.channel in s.channels && s.next.channel != GENERAL
    requires s.channels[s.next.channel].members == {} && s.channels[s.next.channel].deleteTimer.None?
    ensures Invariant(cfg, Created(s, name, password, uid))
  {
    hide Core, Seated;
    var c, ch := s.next.channel, NewChannel(name, password, uid);
    EditKeepsInvariant(cfg, s, c, ch);
    NextChannelKeepsInvariant(cfg, WithChannel(s, c, ch), Next(c));
  }

  lemma NextChannelKeepsInvariant(cfg: Config, s: State, n: ChannelId)
    requires Invariant(cfg, s)
    ensures Invariant(cfg, s.(next := s.next.(channel := n)))
  {
    NextChannelKeepsCore(cfg, s, n);
  }

  lemma ReplacementKeeps(cfg: Config, s: State, name: string, password: Option<string>, uid: UserId, sid: SessionId, now: real)
    requires Invariant(cfg, s) && Owns(s, uid, sid) && CreateRefusal(cfg, s, name).None? && s.next.channel in s.channels
    requires Replaceable(s, uid, sid, s.next.channel, password, now)
    ensures Invariant(cfg, HandleJoin(cfg, Created(s, name, password, uid), uid, sid, s.next.channel, password, now))
  {
    hide CreateRefusal, HandleJoin, PasswordAllowed, Created, Invariant;
    if s.channels[s.next.channel].members == {} {
      ReplacedEmpty(cfg, s, name, password, uid);
      StillOwns(s, name, password, uid, sid);
      HandleJoinKeepsInvariant(cfg, Created(s, name, password, uid), uid, sid, s.next.channel, password, now);
    } else {
      ReplacedByItsOwner(cfg, s, name, password, uid, sid, now);
    }
  }

  lemma AfterCreationIsBeside(cfg: Config, s: State, name: string, password: Option<string>, uid: UserId, sid: SessionId, now: real)
    requires CreateRefusal(cfg, s, name).None?
    ensures Beside(Created(s, name, password, uid), AfterCreation(cfg, s, name, password, uid, sid, now), uid, sid)
  {
    hide CreateRefusal, ValidateJoin, HandleJoin, Created, Beside;
    NewChannelAdmits(cfg, s, name, password, uid);
    HandleJoinIsBeside(cfg, Created(s, name, password, uid), uid, sid, s.next.channel, password, now);
  }

  lemma TimerIsOrphaned(cfg: Config, s: State, name: string, password: Option<string>, uid: UserId, sid: SessionId, now: real)
    requires CreateRefusal(cfg, s, name).None? && TimersOk(s.timers, s.channels) && Numbered(s)
    requires s.next.channel in s.channels && s.channels[s.next.channel].deleteTimer.Some?
    ensures var s' := AfterCreation(cfg, s, name, password, uid, sid, now); !TimersOk(s'.timers, s'.channels)
  {
    hide CreateRefusal, ValidateJoin, HandleJoin, Created, Orphan, TimersOk;
    var c, t := s.next.channel, s.channels[s.next.channel].deleteTimer.value;
    NewChannelAdmits(cfg, s, name, password, uid);
    ReplacedTimed(cfg, s, name, password, uid);
    HandleJoinOrphan(cfg, Created(s, name, password, uid), uid, sid, c, password, now, t, c);
    OrphanBreaks(AfterCreation(cfg, s, name, password, uid, sid, now), t, c);
  }

  lemma MembersAreUnseated(cfg: Config, s: State, name: string, password: Option<string>, uid: UserId, sid: SessionId, now: real)
    requires CreateRefusal(cfg, s, name).None? && Owns(s, uid, sid)
    requires UsersOk(s.sessions, s.userToSession) && MembersOk(s.sessions, s.userToSession, s.channels)
    requires s.next.channel in s.channels && s.next.channel != GENERAL
    requires var members := s.channels[s.next.channel].members;
             members != {} && (members != {uid} || !PasswordAllowed(s, sid, password, now))
    ensures var s' := AfterCreation(cfg, s, name, password, uid, sid, now); !Seated(s'.sessions, s'.channels, {})
  {
    hide CreateRefusal, HandleJoin, PasswordAllowed, ChargePassword, Created, Beside, UsersOk, MembersOk, Seated;
    var members := s.channels[s.next.channel].members;
    if v :| v in members && v != uid {
      AfterCreationIsBeside(cfg, s, name, password, uid, sid, now);
      ReplacedOthers(cfg, s, AfterCreation(cfg, s, name, password, uid, sid, now), name, password, uid, sid, v);
    } else {
      assert members == {uid};
      CreatorKeptOut(cfg, s, name, password, uid, sid, now);
      ReplacedUnderCreator(cfg, s, name, password, uid, sid, now);
    }
  }

  /** What is wrong after any other creation with a number in use, case by case. */
  lemma ReplacementBreaks(cfg: Config, s: State, name: string, password: Option<string>, uid: UserId, sid: SessionId, now: real)
    requires Invariant(cfg, s) && Owns(s, uid, sid) && CreateRefusal(cfg, s, name).None? && s.next.channel in s.channels
    requires !Replaceable(s, uid, sid, s.next.channel, password, now)
    ensures var s' := AfterCreation(cfg, s, name, password, uid, sid, now);
            !ChannelsOk(s'.channels) || !TimersOk(s'.timers, s'.channels) || !Seated(s'.sessions, s'.channels, {})
  {
    hide CreateRefusal, AfterCreation, PasswordAllowed, Created, Beside;
    hide UsersOk, NamesOk, Numbered, ChannelsOk, Housed, MembersOk, TimersOk, AddressesOk, Seated;
    if s.next.channel == GENERAL {
      AfterCreationIsBeside(cfg, s, name, password, uid, sid, now);
      ReplacedGeneral(cfg, s, AfterCreation(cfg, s, name, password, uid, sid, now), name, password, uid, sid);
    } else if s.channels[s.next.channel].deleteTimer.Some? {
      TimerIsOrphaned(cfg, s, name, password, uid, sid, now);
    } else {
      MembersAreUnseated(cfg, s, name, password, uid, sid, now);
    }
  }

  lemma CreatorKeptOut(cfg: Config, s: State, name: string, password: Option<string>, uid: UserId, sid: SessionId, now: real)
    requires CreateRefusal(cfg, s, name).None? && !PasswordAllowed(s, sid, password, now)
    ensures var s1 := Created(s, name, password, uid);
            HandleJoin(cfg, s1, uid, sid, s.next.channel, password, now) == ChargePassword(s1, sid, password, now)
  {
    hide CreateRefusal, ValidateJoin, HandleJoin, PasswordAllowed, ChargePassword, Created, Depart, PutIn;
    NewChannelAdmits(cfg, s, name, password, uid);
    CreatorJoins(cfg, Created(s, name, password, uid), uid, sid, s.next.channel, password, now);
    SamePasswordBucket(s, name, password, uid, sid, now);
  }

  lemma NewChannelAdmits(cfg: Config, s: State, name: string, password: Option<string>, uid: UserId)
    requires CreateRefusal(cfg, s, name).None?
    ensures ValidateJoin(cfg, Created(s, name, password, uid), s.next.channel, password, uid).None?
  {
    hide CreateRefusal, ValidateJoin;
    NewChannelAdmitsCreator(cfg, s, name, password, uid);
  }

  lemma StillOwns(s: State, name: string, password: Option<string>, uid: UserId, sid: SessionId)
    requires Owns(s, uid, sid)
    ensures Owns(Created(s, name, password, uid), uid, sid)
  {
  }

  lemma BrokenParts(cfg: Config, s: State)
    requires !ChannelsOk(s.channels) || !TimersOk(s.timers, s.channels) || !Seated(s.sessions, s.channels, {})
    ensures !Invariant(cfg, s)
  {
  }

  lemma SamePasswordBucket(s: State, name: string, password: Option<string>, uid: UserId, sid: SessionId, now: real)
    ensures PasswordAllowed(Created(s, name, password, uid), sid, password, now) == PasswordAllowed(s, sid, password, now)
  {
  }

  /** A channel creation keeps the invariant if and only if the number drawn is free or its channel can go. */
  lemma CreationKeepsInvariantIff(cfg: Config, s: State, uid: UserId, sid: SessionId, name: string, password: Option<string>, now: real)
    requires Invariant(cfg, s) && Owns(s, uid, sid) && ChannelCreated(cfg, s, name)
    ensures Invariant(cfg, HandleCreate(cfg, s, uid, sid, name, password, now)) <==>
            s.next.channel !in s.channels || Replaceable(s, uid, sid, s.next.channel, password, now)
  {
    hide Core, Seated, HandleJoin, Replaceable, NameAccepted, CreateRefusal;
    if s.next.channel in s.channels {
      if Replaceable(s, uid, sid, s.next.channel, password, now) {
        ReplacementKeeps(cfg, s, name, password, uid, sid, now);
      } else {
        ReplacementBreaks(cfg, s, name, password, uid, sid, now);
        BrokenParts(cfg, HandleCreate(cfg, s, uid, sid, name, password, now));
      }
    } else {
      HandleCreateKeepsInvariant(cfg, s, uid, sid, name, password, now);
    }
  }
}
