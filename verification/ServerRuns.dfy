/** Laws about whole runs of a server: every event, every order, every interleaving of clients. */
module ServerRuns {
  import opened Wrappers
  import opened Bytes
  import opened RateLimiting
  import opened ServerModel
  import opened ServerInvariants
  import opened ServerNumbers

  // ---------------------------------------------------------------- UDP address learning

  lemma BindAddress(sessions: Sessions, addrs: map<Addr, SessionId>, src: Addr, sid: SessionId)
    requires AddressesOk(sessions, addrs) && sid in sessions && src !in addrs
    requires sessions[sid].udpAddr.None? && sessions[sid].peerIp == src.ip
    ensures AddressesOk(Bound(sessions, sid, src), addrs[src := sid])
  {
  }

  function Bound(sessions: Sessions, sid: SessionId, src: Addr): Sessions
    requires sid in sessions
  {
    sessions[sid := sessions[sid].(udpAddr := Some(src))]
  }

  lemma BindKeepsUsers(cfg: Config, s: State, src: Addr, sid: SessionId)
    requires UsersOk(s.sessions, s.userToSession) && NamesOk(cfg, s.sessions, s.nameToSession) && sid in s.sessions
    ensures UsersOk(Bound(s.sessions, sid, src), s.userToSession)
    ensures NamesOk(cfg, Bound(s.sessions, sid, src), s.nameToSession)
  {
  }

  lemma BindKeepsSeats(s: State, src: Addr, sid: SessionId)
    requires Housed(s.sessions, s.channels) && Seated(s.sessions, s.channels, {}) && Numbered(s) && sid in s.sessions
    ensures Housed(Bound(s.sessions, sid, src), s.channels) && Seated(Bound(s.sessions, sid, src), s.channels, {})
    ensures Numbered(s.(sessions := Bound(s.sessions, sid, src)))
  {
  }

  lemma BindKeepsMembers(s: State, src: Addr, sid: SessionId)
    requires MembersOk(s.sessions, s.userToSession, s.channels) && sid in s.sessions
    ensures MembersOk(Bound(s.sessions, sid, src), s.userToSession, s.channels)
  {
  }

  /** Binding an address changes nothing that users, names, seats or counters depend on. */
  lemma BindKeepsOthers(cfg: Config, s: State, src: Addr, sid: SessionId)
    requires Invariant(cfg, s) && sid in s.sessions
    ensures var sessions := Bound(s.sessions, sid, src);
            && UsersOk(sessions, s.userToSession) && NamesOk(cfg, sessions, s.nameToSession)
            && Housed(sessions, s.channels) && MembersOk(sessions, s.userToSession, s.channels)
            && Seated(sessions, s.channels, {}) && Numbered(s.(sessions := sessions))
  {
    hide UsersOk, NamesOk, Housed, MembersOk, Seated, Numbered, ChannelsOk, TimersOk, AddressesOk, Bound;
    BindKeepsUsers(cfg, s, src, sid);
    BindKeepsSeats(s, src, sid);
    BindKeepsMembers(s, src, sid);
  }

  lemma EvictAddress(sessions: Sessions, addrs: map<Addr, SessionId>, src: Addr)
    requires AddressesOk(sessions, addrs)
    ensures AddressesOk(sessions, addrs - {src}) && |addrs - {src}| <= |addrs|
  {
    FewerAddresses(addrs, Some(src));
  }

  lemma ResolveKeepsInvariant(cfg: Config, s: State, src: Addr, claimed: SessionId, token: int)
    requires Invariant(cfg, s)
    ensures Invariant(cfg, Resolve(cfg, s, src, claimed, token))
  {
    hide UsersOk, NamesOk, Housed, MembersOk, Seated, ChannelsOk, TimersOk, AddressesOk;
    if src in s.addrToSession {
      EvictAddress(s.sessions, s.addrToSession, src);
    } else if !LearningRefused(cfg, s, src, claimed, token) && s.sessions[claimed].udpAddr.None? {
      BindAddress(s.sessions, s.addrToSession, src, claimed);
      BindKeepsOthers(cfg, s, src, claimed);
      assert |s.addrToSession[src := claimed]| == |s.addrToSession| + 1;
    }
  }

  /** A datagram is accepted for a session only with that session's token. */
  lemma AcceptedHasToken(cfg: Config, s: State, src: Addr, claimed: SessionId, token: int)
    requires Resolved(cfg, s, src, claimed, token).Some?
    ensures var sid := Resolved(cfg, s, src, claimed, token).value; sid in s.sessions && s.sessions[sid].udpToken == token
  {
  }

  /** ... and only from the address bound to the session, on the host it logged in from. */
  lemma AcceptedIsAuthentic(cfg: Config, s: State, src: Addr, claimed: SessionId, token: int)
    requires Invariant(cfg, s) && Resolved(cfg, s, src, claimed, token).Some?
    ensures var sid, s' := Resolved(cfg, s, src, claimed, token).value, Resolve(cfg, s, src, claimed, token);
            && sid in s'.sessions && s'.sessions[sid].udpAddr == Some(src) && s'.sessions[sid].peerIp == src.ip
            && s'.sessions[sid].udpToken == token
  {
    hide UsersOk, NamesOk, Numbered, Housed, MembersOk, Seated, ChannelsOk, TimersOk;
    AcceptedHasToken(cfg, s, src, claimed, token);
  }

  /** A session that a datagram from a new address may be taken for: known, with its token, from its host. */
  predicate MayLearn(cfg: Config, s: State, src: Addr, claimed: SessionId, token: int) {
    && claimed in s.sessions && s.sessions[claimed].udpToken == token && s.sessions[claimed].peerIp == src.ip
    && (|| s.sessions[claimed].udpAddr == Some(src)
        || (s.sessions[claimed].udpAddr == None && (|s.addrToSession| < 64 || |s.addrToSession| < 2 * cfg.maxUsers)))
  }

  /**
   Which datagrams are accepted: from a known address those with the token of its session, and from a
   new one those of a session that has no other address, as long as there is room for one more. The
   first one binds the address, and a bad one from a known address makes the server forget the address.
   */
  lemma DatagramAcceptedIff(cfg: Config, s: State, src: Addr, claimed: SessionId, token: int)
    requires Invariant(cfg, s)
    ensures var accepted, s' := Resolved(cfg, s, src, claimed, token), Resolve(cfg, s, src, claimed, token);
            if src in s.addrToSession then
              var sid := s.addrToSession[src];
              && sid in s.sessions && accepted == (if s.sessions[sid].udpToken == token then Some(sid) else None)
              && s'.sessions == s.sessions
              && s'.addrToSession == (if accepted.Some? then s.addrToSession else s.addrToSession - {src})
            else
              && accepted == (if MayLearn(cfg, s, src, claimed, token) then Some(claimed) else None)
              && (accepted.Some? ==> s'.sessions == s.sessions[claimed := s.sessions[claimed].(udpAddr := Some(src))])
              && (accepted.Some? && s.sessions[claimed].udpAddr == None ==> s'.addrToSession == s.addrToSession[src := claimed])
              && (accepted.None? ==> s' == s)
  {
    hide UsersOk, NamesOk, Numbered, Housed, MembersOk, Seated, ChannelsOk, TimersOk;
    if claimed in s.sessions && s.sessions[claimed].udpAddr == Some(src) {
      assert s.sessions[claimed := s.sessions[claimed].(udpAddr := Some(src))] == s.sessions;
    }
  }

  ghost predicate TokensDistinct(s: State) {
    forall a, b :: a in s.sessions && b in s.sessions && s.sessions[a].udpToken == s.sessions[b].udpToken ==> a == b
  }

  /** With distinct tokens the claimed session number does not matter: the token alone decides. */
  lemma TokenDecides(cfg: Config, s: State, src: Addr, src': Addr, claimed: SessionId, claimed': SessionId, token: int)
    requires TokensDistinct(s)
    requires Resolved(cfg, s, src, claimed, token).Some? && Resolved(cfg, s, src', claimed', token).Some?
    ensures Resolved(cfg, s, src, claimed, token) == Resolved(cfg, s, src', claimed', token)
  {
    AcceptedHasToken(cfg, s, src, claimed, token);
    AcceptedHasToken(cfg, s, src', claimed', token);
  }

  // ---------------------------------------------------------------- one step

  /** A message that gets as far as drawing a channel number. */
  predicate Creates(cfg: Config, s: State, e: Event) {
    && e.CreateEv? && e.sid in s.sessions
    && CreateAllowed(s, e.sid, e.now) && ChannelCreated(cfg, s, Trim(e.name))
  }

  /** The numbers that an event draws, if it draws any, are free, or the channel in their place can go. */
  predicate DrawsHarmless(cfg: Config, s: State, e: Event) {
    match e
    case LoginEv(name, _, _, _) =>
      LoggedIn(cfg, s, name) ==> s.next.user !in s.userToSession && s.next.session !in s.sessions
    case CreateEv(sid, _, password, now) =>
      Creates(cfg, s, e) && s.next.channel in s.channels ==>
        Replaceable(s, s.sessions[sid].userId, sid, s.next.channel, password, now)
    case _ => true
  }

  lemma SetPasswordKeepsInvariant(cfg: Config, s: State, c: ChannelId, uid: UserId, password: Option<string>)
    requires Invariant(cfg, s)
    ensures Invariant(cfg, SetPassword(s, c, uid, password))
  {
    if SetPasswordRefusal(s, c, uid).None? {
      EditKeepsInvariant(cfg, s, c, s.channels[c].(hasPassword := password.Some?, password := password));
    }
  }

  lemma InviteKeepsInvariant(cfg: Config, s: State, c: ChannelId, requester: UserId, target: UserId)
    requires Invariant(cfg, s)
    ensures Invariant(cfg, Invite(s, c, requester, target))
  {
    if InviteRefusal(s, c, requester, target).None? {
      EditKeepsInvariant(cfg, s, c, s.channels[c].(invited := s.channels[c].invited + {target}));
    }
  }

  lemma RemoveInviteKeepsInvariant(cfg: Config, s: State, c: ChannelId, uid: UserId)
    requires Invariant(cfg, s)
    ensures Invariant(cfg, RemoveInvite(s, c, uid))
  {
    if c in s.channels {
      var invited := s.channels[c].invited - {uid};
      assert c == GENERAL ==> invited == {};
      EditKeepsInvariant(cfg, s, c, s.channels[c].(invited := invited));
    }
  }

  lemma MessageKeepsInvariant(cfg: Config, s: State, uid: UserId, e: Event)
    requires Invariant(cfg, s) && !e.CreateEv?
    requires !e.LoginEv? && !e.TimerEv? && !e.DatagramEv? && Owns(s, uid, e.sid)
    ensures Invariant(cfg, HandleMessage(cfg, s, uid, e))
  {
    hide Core, Seated, SameSeats;
    var c := ChannelOf(s, e.sid);
    match e
    case JoinEv(sid, target, attempt, now) => HandleJoinKeepsInvariant(cfg, s, uid, sid, target, attempt, now);
    case PasswordEv(_, target, attempt) => SetPasswordKeepsInvariant(cfg, s, target, uid, attempt);
    case KickEv(_, target, victim) => HandleKickKeepsInvariant(cfg, s, uid, target, victim);
    case InviteEv(_, target, guest) => InviteKeepsInvariant(cfg, s, target, uid, guest);
    case DeclineEv(_, target) => RemoveInviteKeepsInvariant(cfg, s, target, uid);
    case StartShareEv(sid, resolution) =>
      StartShareMovesNobody(s, uid, sid, c, resolution);
      SameSeatsKeepsInvariant(cfg, s, StartShare(s, uid, sid, c, resolution));
    case StopShareEv(sid) =>
      StopShareMovesNobody(s, uid, sid, c);
      SameSeatsKeepsInvariant(cfg, s, StopShare(s, uid, sid, c));
    case WatchEv(sid, sharer) =>
      WatchMovesNobody(s, uid, sid, sharer, c);
      SameSeatsKeepsInvariant(cfg, s, Watch(s, uid, sid, sharer, c));
    case StopWatchingEv(sid) =>
      StopWatchingMovesNobody(s, uid, sid, c);
      SameSeatsKeepsInvariant(cfg, s, StopWatching(s, uid, sid, c));
    case DisconnectEv(sid) => DisconnectKeepsInvariant(cfg, s, uid, sid);
  }

  /** What happens next keeps the invariant if and only if the numbers it draws are harmless. */
  lemma StepKeepsInvariantIff(cfg: Config, s: State, e: Event)
    requires Invariant(cfg, s)
    ensures Invariant(cfg, Step(cfg, s, e)) <==> DrawsHarmless(cfg, s, e)
  {
    hide Core, Seated, HandleMessage, Login, FireTimer, Resolve, Replaceable, CreateAllowed, ChannelCreated, LoggedIn;
    if e.LoginEv? {
      LoginStepIff(cfg, s, e);
    } else if e.TimerEv? {
      FireTimerKeepsInvariant(cfg, s, e.timer);
    } else if e.DatagramEv? {
      ResolveKeepsInvariant(cfg, s, e.src, e.sid, e.token);
    } else if e.sid in s.sessions {
      StepIsMessage(cfg, s, e);
      if e.CreateEv? {
        CreateStepIff(cfg, s, e);
      } else {
        MessageKeepsInvariant(cfg, s, s.sessions[e.sid].userId, e);
      }
    }
  }

  lemma LoginStepIff(cfg: Config, s: State, e: Event)
    requires Invariant(cfg, s) && e.LoginEv?
    ensures Invariant(cfg, Login(cfg, s, e.name, e.token, e.ip, e.now)) <==> DrawsHarmless(cfg, s, e)
  {
    hide Invariant;
    if LoggedIn(cfg, s, e.name) {
      LoginKeepsInvariantIff(cfg, s, e.name, e.token, e.ip, e.now);
    } else {
      LoginKeepsInvariant(cfg, s, e.name, e.token, e.ip, e.now);
    }
  }

  lemma CreateStepIff(cfg: Config, s: State, e: Event)
    requires Invariant(cfg, s) && e.CreateEv? && e.sid in s.sessions
    ensures Invariant(cfg, HandleMessage(cfg, s, s.sessions[e.sid].userId, e)) <==> DrawsHarmless(cfg, s, e)
  {
    hide Invariant, HandleJoin, Create, Replaceable, ChargeCreate, CreateAllowed, NameAccepted, CreateRefusal;
    var uid, s0, name := s.sessions[e.sid].userId, ChargeCreate(s, e.sid, e.now), Trim(e.name);
    ChargeCreateKeepsInvariant(cfg, s, uid, e.sid, e.now);
    ChargeCreateIs(cfg, s, uid, e.sid, name, e.attempt, e.now);
    if ChannelCreated(cfg, s0, name) {
      CreationKeepsInvariantIff(cfg, s0, uid, e.sid, name, e.attempt, e.now);
    }
  }

  lemma ChargeCreateKeepsInvariant(cfg: Config, s: State, uid: UserId, sid: SessionId, now: real)
    requires Invariant(cfg, s) && Owns(s, uid, sid)
    ensures Invariant(cfg, ChargeCreate(s, sid, now)) && Owns(ChargeCreate(s, sid, now), uid, sid)
  {
    hide Invariant, ChargeCreate;
    ChargeCreateMovesNobody(s, sid, now);
    SameSeatsKeepsInvariant(cfg, s, ChargeCreate(s, sid, now));
  }

  /** The bucket for creations decides nothing else. */
  lemma ChargeCreateIs(cfg: Config, s: State, uid: UserId, sid: SessionId, name: string, password: Option<string>, now: real)
    ensures var s0 := ChargeCreate(s, sid, now);
            && s0.channels == s.channels && s0.next == s.next
            && ChannelCreated(cfg, s0, name) == ChannelCreated(cfg, s, name)
            && (s.next.channel in s.channels ==>
                  Replaceable(s0, uid, sid, s.next.channel, password, now) == Replaceable(s, uid, sid, s.next.channel, password, now))
  {
    hide NameAccepted, TryConsume;
  }

  lemma StepIsMessage(cfg: Config, s: State, e: Event)
    requires !e.LoginEv? && !e.TimerEv? && !e.DatagramEv? && e.sid in s.sessions
    ensures Step(cfg, s, e) == HandleMessage(cfg, s, s.sessions[e.sid].userId, e)
  {
    hide HandleMessage;
  }

  // ---------------------------------------------------------------- runs

  /** The same client: user, name, token and host never change, and an address, once bound, stays. */
  ghost predicate SameClient(x: Session, y: Session) {
    && y.userId == x.userId && y.username == x.username && y.udpToken == x.udpToken && y.peerIp == x.peerIp
    && (x.udpAddr.Some? ==> y.udpAddr == x.udpAddr)
  }

  /** Nothing new: what there is was there before, for the same client, and no number was drawn. */
  ghost predicate NobodyNew(s: State, s': State) {
    && s'.next.user == s.next.user && s'.next.session == s.next.session && s'.next.channel == s.next.channel
    && (forall sid :: sid in s'.sessions ==> sid in s.sessions && SameClient(s.sessions[sid], s'.sessions[sid]))
    && s'.userToSession.Keys <= s.userToSession.Keys
    && (forall c :: c in s'.channels ==> c in s.channels && s'.channels[c].persistent == s.channels[c].persistent)
  }

  lemma NobodyNewCompose(s: State, s1: State, s2: State)
    requires NobodyNew(s, s1) && NobodyNew(s1, s2)
    ensures NobodyNew(s, s2)
  {
  }

  lemma SameSeatsNobodyNew(s: State, s': State)
    requires SameSeats(s, s')
    ensures NobodyNew(s, s')
  {
  }

  lemma JoinNobodyNew(cfg: Config, s: State, uid: UserId, sid: SessionId, c: ChannelId, attempt: Option<string>)
    ensures NobodyNew(s, Join(cfg, s, uid, sid, c, attempt))
  {
    assert ValidateJoin(cfg, s, c, attempt, uid) != Some(NoSuchChannel) ==> c in s.channels;
    hide ValidateJoin;
  }

  lemma TimerNobodyNew(s: State, c: ChannelId)
    ensures NobodyNew(s, StartDeleteTimer(s, c))
  {
  }

  lemma DepartNobodyNew(s: State, uid: UserId, sid: SessionId, target: ChannelId)
    ensures NobodyNew(s, Depart(s, uid, sid, target))
  {
    hide StartDeleteTimer, CleanupShares, SameSeats;
    var c := ChannelOf(s, sid);
    var s1 := if c != target && c != GENERAL then CleanupShares(s, uid, sid, c) else s;
    CleanupMovesNobody(s, uid, sid, c);
    SameSeatsNobodyNew(s, CleanupShares(s, uid, sid, c));
    LeaveAndTimeNobodyNew(s1, uid, sid);
    NobodyNewCompose(s, s1, LeaveAndTime(s1, uid, sid));
  }

  lemma LeaveAndTimeNobodyNew(s: State, uid: UserId, sid: SessionId)
    ensures NobodyNew(s, LeaveAndTime(s, uid, sid))
  {
    hide StartDeleteTimer;
    var s1 := Leave(s, uid, sid);
    assert NobodyNew(s, s1);
    if CanLeave(s, uid, sid) {
      TimerNobodyNew(s1, s.sessions[sid].channelId);
      NobodyNewCompose(s, s1, StartDeleteTimer(s1, s.sessions[sid].channelId));
    }
  }

  lemma HandleJoinNobodyNew(cfg: Config, s: State, uid: UserId, sid: SessionId, c: ChannelId, attempt: Option<string>, now: real)
    ensures NobodyNew(s, HandleJoin(cfg, s, uid, sid, c, attempt, now))
  {
    hide NobodyNew, SameSeats, Depart, Join, ChargePassword, ValidateJoin;
    var s0 := ChargePassword(s, sid, attempt, now);
    var s1 := Depart(s0, uid, sid, c);
    var s2 := Join(cfg, s1, uid, sid, c, attempt);
    ChargeMovesNobody(s, sid, attempt, now);
    SameSeatsNobodyNew(s, s0);
    DepartNobodyNew(s0, uid, sid, c);
    JoinNobodyNew(cfg, s1, uid, sid, c, attempt);
    JoinNobodyNew(cfg, s2, uid, sid, GENERAL, None);
    NobodyNewCompose(s, s0, s1);
    NobodyNewCompose(s, s1, s2);
    NobodyNewCompose(s, s2, Join(cfg, s2, uid, sid, GENERAL, None));
  }

  lemma HandleKickNobodyNew(cfg: Config, s: State, requester: UserId, c: ChannelId, target: UserId)
    ensures NobodyNew(s, HandleKick(cfg, s, requester, c, target))
  {
    hide Join, StartDeleteTimer;
    var s1 := Kick(s, c, requester, target);
    assert NobodyNew(s, s1);
    if KickRefusal(s, c, requester, target).None? {
      var s2 := Join(cfg, s1, target, s.userToSession[target], GENERAL, None);
      JoinNobodyNew(cfg, s1, target, s.userToSession[target], GENERAL, None);
      TimerNobodyNew(s2, c);
      NobodyNewCompose(s, s1, s2);
      NobodyNewCompose(s, s2, StartDeleteTimer(s2, c));
    }
  }

  lemma DisconnectNobodyNew(cfg: Config, s: State, uid: UserId, sid: SessionId)
    ensures NobodyNew(s, Disconnect(cfg, s, uid, sid))
  {
    hide CleanupShares, LeaveAndTime, SameSeats, RemoveSession, NobodyNew;
    var c := ChannelOf(s, sid);
    var s1 := if c != GENERAL then CleanupShares(s, uid, sid, c) else s;
    var s2 := LeaveAndTime(s1, uid, sid);
    CleanupMovesNobody(s, uid, sid, c);
    SameSessionsNobodyNew(s, s);
    SameSeatsNobodyNew(s, CleanupShares(s, uid, sid, c));
    LeaveAndTimeNobodyNew(s1, uid, sid);
    NobodyNewCompose(s, s1, s2);
    RemoveNobodyNew(cfg, s2, sid);
    NobodyNewCompose(s, s2, RemoveSession(cfg, s2, sid));
  }

  lemma RemoveNobodyNew(cfg: Config, s: State, sid: SessionId)
    ensures NobodyNew(s, RemoveSession(cfg, s, sid))
  {
    hide SameClient;
    SameAsThemselves(s.sessions);
  }

  lemma EditNobodyNew(s: State, c: ChannelId, ch: Channel)
    requires c in s.channels && ch.persistent == s.channels[c].persistent
    ensures NobodyNew(s, WithChannel(s, c, ch))
  {
    hide SameClient;
    SameAsThemselves(s.sessions);
  }

  /** Messages other than a channel creation. */
  lemma MessageNobodyNew(cfg: Config, s: State, uid: UserId, e: Event)
    requires !e.LoginEv? && !e.TimerEv? && !e.DatagramEv? && !e.CreateEv?
    ensures NobodyNew(s, HandleMessage(cfg, s, uid, e))
  {
    hide SameSeats, StartShare, StopShare, Watch, StopWatching, HandleJoin, HandleKick, Disconnect, NobodyNew;
    var c := ChannelOf(s, e.sid);
    match e
    case JoinEv(sid, target, attempt, now) => HandleJoinNobodyNew(cfg, s, uid, sid, target, attempt, now);
    case KickEv(_, target, victim) => HandleKickNobodyNew(cfg, s, uid, target, victim);
    case StartShareEv(sid, resolution) =>
      StartShareMovesNobody(s, uid, sid, c, resolution);
      SameSeatsNobodyNew(s, StartShare(s, uid, sid, c, resolution));
    case StopShareEv(sid) =>
      StopShareMovesNobody(s, uid, sid, c);
      SameSeatsNobodyNew(s, StopShare(s, uid, sid, c));
    case WatchEv(sid, sharer) =>
      WatchMovesNobody(s, uid, sid, sharer, c);
      SameSeatsNobodyNew(s, Watch(s, uid, sid, sharer, c));
    case StopWatchingEv(sid) =>
      StopWatchingMovesNobody(s, uid, sid, c);
      SameSeatsNobodyNew(s, StopWatching(s, uid, sid, c));
    case DisconnectEv(sid) => DisconnectNobodyNew(cfg, s, uid, sid);
    case PasswordEv(_, target, attempt) =>
      if SetPasswordRefusal(s, target, uid).None? {
        EditNobodyNew(s, target, s.channels[target].(hasPassword := attempt.Some?, password := attempt));
      } else {
        SameSessionsNobodyNew(s, s);
      }
    case InviteEv(_, target, guest) =>
      if InviteRefusal(s, target, uid, guest).None? {
        EditNobodyNew(s, target, s.channels[target].(invited := s.channels[target].invited + {guest}));
      } else {
        SameSessionsNobodyNew(s, s);
      }
    case DeclineEv(_, target) =>
      if target in s.channels {
        EditNobodyNew(s, target, s.channels[target].(invited := s.channels[target].invited - {uid}));
      } else {
        SameSessionsNobodyNew(s, s);
      }
  }

  /** The session numbers an event may put in use. */
  function SessionsDrawn(cfg: Config, s: State, e: Event): set<SessionId> {
    if e.LoginEv? && LoggedIn(cfg, s, e.name) then {s.next.session} else {}
  }

  /**
   One step: sessions are those from before, for the same clients, or carry the number just drawn;
   users and channels likewise; and the counters move on by one or stay.
   */
  ghost predicate Continues(cfg: Config, s: State, e: Event, s': State) {
    && (forall sid :: sid in s'.sessions && sid !in SessionsDrawn(cfg, s, e) ==>
          sid in s.sessions && SameClient(s.sessions[sid], s'.sessions[sid]))
    && (SessionsDrawn(cfg, s, e) != {} ==>
          s'.next.session == Next(s.next.session) && s'.next.user == Next(s.next.user))
    && (forall u :: u in s'.userToSession ==>
          u in s.userToSession || (u == s.next.user && SessionsDrawn(cfg, s, e) != {}))
    && (forall c :: c in s'.channels ==>
          c in s.channels || (c == s.next.channel && e.CreateEv? && s'.next.channel == Next(s.next.channel)))
    && s'.next.user in (if e.LoginEv? then {s.next.user, Next(s.next.user)} else {s.next.user})
    && s'.next.session in (if e.LoginEv? then {s.next.session, Next(s.next.session)} else {s.next.session})
    && s'.next.channel in (if e.CreateEv? then {s.next.channel, Next(s.next.channel)} else {s.next.channel})
  }

  lemma NobodyNewContinues(cfg: Config, s: State, e: Event, s': State)
    requires NobodyNew(s, s') && SessionsDrawn(cfg, s, e) == {}
    ensures Continues(cfg, s, e, s')
  {
  }

  lemma CreateContinues(cfg: Config, s: State, uid: UserId, e: Event)
    requires e.CreateEv?
    ensures Continues(cfg, s, e, HandleCreate(cfg, s, uid, e.sid, Trim(e.name), e.attempt, e.now))
  {
    hide HandleJoin, NameAccepted, NameTaken, SameClient;
    var s1 := Create(cfg, s, Trim(e.name), e.attempt, uid);
    SameAsThemselves(s.sessions);
    HandleJoinNobodyNew(cfg, s1, uid, e.sid, s.next.channel, e.attempt, e.now);
  }

  lemma CreateMessageContinues(cfg: Config, s: State, uid: UserId, e: Event)
    requires e.CreateEv?
    ensures Continues(cfg, s, e, CreateMessage(cfg, s, uid, e.sid, e.name, e.attempt, e.now))
  {
    hide HandleCreate, Continues, ChargeCreate, CreateAllowed, SameSeats, NobodyNew;
    var s0 := ChargeCreate(s, e.sid, e.now);
    ChargeCreateMovesNobody(s, e.sid, e.now);
    SameSeatsNobodyNew(s, s0);
    NobodyNewContinues(cfg, s, e, s0);
    CreateContinues(cfg, s0, uid, e);
    ContinuesAfter(cfg, s, s0, e, HandleCreate(cfg, s0, uid, e.sid, Trim(e.name), e.attempt, e.now));
  }

  lemma ContinuesAfter(cfg: Config, s: State, s0: State, e: Event, s': State)
    requires e.CreateEv? && SameSeats(s, s0) && Continues(cfg, s0, e, s')
    ensures Continues(cfg, s, e, s')
  {
  }

  lemma SameAsThemselves(sessions: Sessions)
    ensures forall sid :: sid in sessions ==> SameClient(sessions[sid], sessions[sid])
  {
  }

  lemma LoginContinues(cfg: Config, s: State, e: Event)
    requires e.LoginEv?
    ensures Continues(cfg, s, e, Login(cfg, s, e.name, e.token, e.ip, e.now))
  {
    if LoggedIn(cfg, s, e.name) {
      AcceptedLoginContinues(cfg, s, e);
    } else {
      RefusedLoginContinues(cfg, s, e);
    }
  }

  lemma AcceptedLoginContinues(cfg: Config, s: State, e: Event)
    requires e.LoginEv? && LoggedIn(cfg, s, e.name)
    ensures Continues(cfg, s, e, Login(cfg, s, e.name, e.token, e.ip, e.now))
  {
    hide NewBucket, SameClient, Next;
    SameAsThemselves(s.sessions);
    var s' := Login(cfg, s, e.name, e.token, e.ip, e.now);
    assert forall u :: u in s'.userToSession ==> u in s.userToSession || u == s.next.user;
  }

  lemma RefusedLoginContinues(cfg: Config, s: State, e: Event)
    requires e.LoginEv? && !LoggedIn(cfg, s, e.name)
    ensures Continues(cfg, s, e, Login(cfg, s, e.name, e.token, e.ip, e.now))
  {
    hide NewBucket, SameClient, Next;
    SameAsThemselves(s.sessions);
  }

  lemma TimerNobodyLeft(s: State, t: TimerId)
    ensures NobodyNew(s, FireTimer(s, t))
  {
    hide SameClient;
    SameAsThemselves(s.sessions);
  }

  lemma BindNobodyNew(s: State, s': State, src: Addr, sid: SessionId)
    requires sid in s.sessions && s.sessions[sid].udpAddr.None?
    requires s' == s.(sessions := Bound(s.sessions, sid, src), addrToSession := s'.addrToSession)
    ensures NobodyNew(s, s')
  {
  }

  lemma DatagramNobodyNew(cfg: Config, s: State, src: Addr, claimed: SessionId, token: int)
    ensures NobodyNew(s, Resolve(cfg, s, src, claimed, token))
  {
    hide Resolved, NobodyNew;
    var s' := Resolve(cfg, s, src, claimed, token);
    if src in s.addrToSession || LearningRefused(cfg, s, src, claimed, token) || s.sessions[claimed].udpAddr.Some? {
      SameSessionsNobodyNew(s, s');
    } else {
      BindNobodyNew(s, s', src, claimed);
    }
  }

  lemma SameSessionsNobodyNew(s: State, s': State)
    requires s' == s.(addrToSession := s'.addrToSession)
    ensures NobodyNew(s, s')
  {
  }

  lemma StepContinues(cfg: Config, s: State, e: Event)
    ensures Continues(cfg, s, e, Step(cfg, s, e))
  {
    hide HandleMessage, Login, FireTimer, Resolve, Continues, NobodyNew;
    if e.LoginEv? {
      LoginContinues(cfg, s, e);
    } else if e.TimerEv? {
      TimerNobodyLeft(s, e.timer);
      NobodyNewContinues(cfg, s, e, Step(cfg, s, e));
    } else if e.DatagramEv? {
      DatagramNobodyNew(cfg, s, e.src, e.sid, e.token);
      NobodyNewContinues(cfg, s, e, Step(cfg, s, e));
    } else if e.sid in s.sessions {
      StepIsMessage(cfg, s, e);
      MessageContinues(cfg, s, s.sessions[e.sid].userId, e);
    } else {
      SameSessionsNobodyNew(s, s);
      NobodyNewContinues(cfg, s, e, s);
    }
  }

  lemma MessageContinues(cfg: Config, s: State, uid: UserId, e: Event)
    requires !e.LoginEv? && !e.TimerEv? && !e.DatagramEv?
    ensures Continues(cfg, s, e, HandleMessage(cfg, s, uid, e))
  {
    if e.CreateEv? {
      hide CreateMessage, Continues;
      CreateMessageContinues(cfg, s, uid, e);
    } else {
      hide HandleMessage;
      MessageNobodyNew(cfg, s, uid, e);
    }
  }

  lemma {:induction false} RunAppend(cfg: Config, s: State, es: seq<Event>, e: Event)
    ensures Run(cfg, s, es + [e]) == Step(cfg, Run(cfg, s, es), e)
    decreases |es|
  {
    hide Step;
    if es == [] {
      assert [e][1..] == [] && es + [e] == [e];
    } else {
      RunAppend(cfg, Step(cfg, s, es[0]), es[1..], e);
      assert (es + [e])[1..] == es[1..] + [e];
    }
  }

  /** Every number drawn in a run is harmless when it is drawn. */
  ghost predicate AllDrawsHarmless(cfg: Config, s: State, es: seq<Event>)
    decreases |es|
  {
    es == [] || (DrawsHarmless(cfg, s, es[0]) && AllDrawsHarmless(cfg, Step(cfg, s, es[0]), es[1..]))
  }

  /** The invariant holds after each of the events, however many and of whatever kind. */
  ghost predicate InvariantThroughout(cfg: Config, s: State, es: seq<Event>)
    decreases |es|
  {
    Invariant(cfg, s) && (es == [] || InvariantThroughout(cfg, Step(cfg, s, es[0]), es[1..]))
  }

  lemma {:induction false} InvariantThroughoutIff(cfg: Config, s: State, es: seq<Event>)
    requires Invariant(cfg, s)
    ensures InvariantThroughout(cfg, s, es) <==> AllDrawsHarmless(cfg, s, es)
    decreases |es|
  {
    hide Invariant, Step, DrawsHarmless;
    if es != [] {
      StepKeepsInvariantIff(cfg, s, es[0]);
      if DrawsHarmless(cfg, s, es[0]) {
        InvariantThroughoutIff(cfg, Step(cfg, s, es[0]), es[1..]);
      } else {
        BrokenAtOnce(cfg, Step(cfg, s, es[0]), es[1..]);
      }
    }
  }

  lemma BrokenAtOnce(cfg: Config, s: State, es: seq<Event>)
    requires !Invariant(cfg, s)
    ensures !InvariantThroughout(cfg, s, es)
  {
    hide Invariant, Step;
  }

  lemma {:induction false} RunKeepsInvariant(cfg: Config, s: State, es: seq<Event>)
    requires Invariant(cfg, s) && AllDrawsHarmless(cfg, s, es)
    ensures Invariant(cfg, Run(cfg, s, es))
    decreases |es|
  {
    hide Invariant, Step, DrawsHarmless;
    if es != [] {
      StepKeepsInvariantIff(cfg, s, es[0]);
      RunKeepsInvariant(cfg, Step(cfg, s, es[0]), es[1..]);
    }
  }

  // ---------------------------------------------------------------- when the numbers drawn are harmless

  /** Only logins and creations draw numbers. */
  function Draws(es: seq<Event>): nat {
    if es == [] then 0 else (if es[0].LoginEv? || es[0].CreateEv? then 1 else 0) + Draws(es[1..])
  }

  lemma {:induction false} FewDraws(es: seq<Event>)
    ensures Draws(es) <= |es|
  {
    if es != [] {
      FewDraws(es[1..]);
    }
  }

  /** n more numbers can be drawn of each kind before a counter wraps. */
  predicate NumbersLeft(s: State, n: nat) {
    s.next.user + n < U32 && s.next.session + n < U32 && s.next.channel + n < U32
  }

  /** What is in use was drawn before. */
  ghost predicate DrawnBefore(s: State) {
    && (forall sid :: sid in s.sessions ==> sid < s.next.session)
    && (forall u :: u in s.userToSession ==> u < s.next.user)
    && (forall c :: c in s.channels ==> c < s.next.channel)
  }

  lemma NextNumber(n: nat)
    requires n + 1 < U32
    ensures Next(n) == n + 1
  {
  }

  lemma StepDrawsBefore(cfg: Config, s: State, e: Event, n: nat)
    requires DrawnBefore(s) && NumbersLeft(s, Draws([e]) + n)
    ensures DrawnBefore(Step(cfg, s, e)) && NumbersLeft(Step(cfg, s, e), n)
  {
    hide Step, SameClient, Draws, Next, LoggedIn;
    StepContinues(cfg, s, e);
    DrawsOfOne(e);
    if e.LoginEv? {
      NextNumber(s.next.user);
      NextNumber(s.next.session);
    } else if e.CreateEv? {
      NextNumber(s.next.channel);
    }
  }

  lemma DrawsOfOne(e: Event)
    ensures Draws([e]) == if e.LoginEv? || e.CreateEv? then 1 else 0
  {
    assert [e][1..] == [];
  }

  /** Logins and creations draw free numbers until they have used up a counter, whatever else happens. */
  lemma {:induction false} FewDrawsAreHarmless(cfg: Config, s: State, es: seq<Event>)
    requires DrawnBefore(s) && NumbersLeft(s, Draws(es))
    ensures AllDrawsHarmless(cfg, s, es)
    decreases |es|
  {
    hide Step;
    if es != [] {
      DrawsOfOne(es[0]);
      StepDrawsBefore(cfg, s, es[0], Draws(es[1..]));
      FewDrawsAreHarmless(cfg, Step(cfg, s, es[0]), es[1..]);
    }
  }

  lemma FewDrawsFromStart(cfg: Config, entries: seq<ChannelEntry>, es: seq<Event>)
    requires |entries| + 1 + Draws(es) < U32
    ensures AllDrawsHarmless(cfg, Initial(entries), es)
  {
    hide Step;
    FewDrawsAreHarmless(cfg, Initial(entries), es);
  }

  // ---------------------------------------------------------------- clients

  /** No login in the run is given session number sid. */
  ghost predicate NeverDrawn(cfg: Config, s: State, es: seq<Event>, sid: SessionId)
    decreases |es|
  {
    es == [] || (sid !in SessionsDrawn(cfg, s, es[0]) && NeverDrawn(cfg, Step(cfg, s, es[0]), es[1..], sid))
  }

  /**
   A client keeps its identity for as long as its session lives, a bound UDP address is never
   replaced, and a session that ended does not come back until its number is drawn again.
   */
  lemma {:induction false} ClientsKeepTheirIdentity(cfg: Config, s: State, es: seq<Event>, sid: SessionId)
    requires NeverDrawn(cfg, s, es, sid) && sid in Run(cfg, s, es).sessions
    ensures sid in s.sessions && SameClient(s.sessions[sid], Run(cfg, s, es).sessions[sid])
    decreases |es|
  {
    hide Step, SessionsDrawn;
    if es != [] {
      StepContinues(cfg, s, es[0]);
      ClientsKeepTheirIdentity(cfg, Step(cfg, s, es[0]), es[1..], sid);
    } else {
      SameAsThemselves(s.sessions);
    }
  }

  /** A number below the counter is not drawn again before the counter wraps. */
  lemma {:induction false} NumbersAreNotDrawnAgain(cfg: Config, s: State, es: seq<Event>, sid: SessionId)
    requires sid < s.next.session && s.next.session + Draws(es) < U32
    ensures NeverDrawn(cfg, s, es, sid)
    decreases |es|
  {
    hide Step, Next;
    if es != [] {
      SessionCounterMovesOn(cfg, s, es[0]);
      if es[0].LoginEv? {
        NextNumber(s.next.session);
      }
      NumbersAreNotDrawnAgain(cfg, Step(cfg, s, es[0]), es[1..], sid);
    }
  }

  lemma SessionCounterMovesOn(cfg: Config, s: State, e: Event)
    ensures Step(cfg, s, e).next.session in (if e.LoginEv? then {s.next.session, Next(s.next.session)} else {s.next.session})
  {
    hide Step, SessionsDrawn, SameClient, Next;
    StepContinues(cfg, s, e);
  }

  // ---------------------------------------------------------------- limits

  /** No more sessions than the server admits, and no more user-created channels. */
  ghost predicate WithinLimits(cfg: Config, s: State) {
    |s.sessions| <= cfg.maxUsers && |UserChannels(s)| <= cfg.maxChannels
  }

  lemma NobodyNewWithinLimits(cfg: Config, s: State, s': State)
    requires NobodyNew(s, s') && WithinLimits(cfg, s)
    ensures WithinLimits(cfg, s')
  {
    hide SameClient;
    assert s'.sessions.Keys <= s.sessions.Keys;
    SmallerSet(s'.sessions.Keys, s.sessions.Keys);
    SmallerSet(UserChannels(s'), UserChannels(s));
  }

  lemma CreateWithinLimits(cfg: Config, s: State, uid: UserId, e: Event)
    requires e.CreateEv? && WithinLimits(cfg, s)
    ensures WithinLimits(cfg, HandleCreate(cfg, s, uid, e.sid, Trim(e.name), e.attempt, e.now))
  {
    hide HandleJoin, NameAccepted, NameTaken;
    var s1, c := Create(cfg, s, Trim(e.name), e.attempt, uid), s.next.channel;
    if CreateRefusal(cfg, s, Trim(e.name)).None? {
      SmallerSet(UserChannels(s1), UserChannels(s) + {c});
    }
    HandleJoinNobodyNew(cfg, s1, uid, e.sid, c, e.attempt, e.now);
    NobodyNewWithinLimits(cfg, s1, HandleJoin(cfg, s1, uid, e.sid, c, e.attempt, e.now));
  }

  lemma StepKeepsLimits(cfg: Config, s: State, e: Event)
    requires WithinLimits(cfg, s)
    ensures WithinLimits(cfg, Step(cfg, s, e))
  {
    hide HandleMessage, FireTimer, Resolve, NobodyNew, NewBucket;
    if e.TimerEv? {
      TimerNobodyLeft(s, e.timer);
      NobodyNewWithinLimits(cfg, s, Step(cfg, s, e));
    } else if e.DatagramEv? {
      DatagramNobodyNew(cfg, s, e.src, e.sid, e.token);
      NobodyNewWithinLimits(cfg, s, Step(cfg, s, e));
    } else if !e.LoginEv? && e.sid in s.sessions {
      StepIsMessage(cfg, s, e);
      MessageKeepsLimits(cfg, s, s.sessions[e.sid].userId, e);
    }
  }

  lemma MessageKeepsLimits(cfg: Config, s: State, uid: UserId, e: Event)
    requires WithinLimits(cfg, s) && !e.LoginEv? && !e.TimerEv? && !e.DatagramEv?
    ensures WithinLimits(cfg, HandleMessage(cfg, s, uid, e))
  {
    if e.CreateEv? {
      hide HandleCreate, WithinLimits, ChargeCreate, CreateAllowed, SameSeats, NobodyNew;
      var s0 := ChargeCreate(s, e.sid, e.now);
      ChargeCreateMovesNobody(s, e.sid, e.now);
      SameSeatsNobodyNew(s, s0);
      NobodyNewWithinLimits(cfg, s, s0);
      CreateWithinLimits(cfg, s0, uid, e);
    } else {
      hide HandleMessage;
      MessageNobodyNew(cfg, s, uid, e);
      NobodyNewWithinLimits(cfg, s, HandleMessage(cfg, s, uid, e));
    }
  }

  lemma {:induction false} RunKeepsLimits(cfg: Config, s: State, es: seq<Event>)
    requires WithinLimits(cfg, s)
    ensures WithinLimits(cfg, Run(cfg, s, es))
    decreases |es|
  {
    hide Step, WithinLimits;
    if es != [] {
      StepKeepsLimits(cfg, s, es[0]);
      RunKeepsLimits(cfg, Step(cfg, s, es[0]), es[1..]);
    }
  }

  /** In every run from start-up on, without exception. */
  lemma LimitsInEveryRun(cfg: Config, entries: seq<ChannelEntry>, es: seq<Event>)
    requires |entries| < U32 - 1
    ensures WithinLimits(cfg, Run(cfg, Initial(entries), es))
  {
    hide Run;
    assert UserChannels(Initial(entries)) == {};
    RunKeepsLimits(cfg, Initial(entries), es);
  }

  // ---------------------------------------------------------------- logins

  /** Whom a login that is not refused adds: under the numbers drawn, in General, with full buckets; nobody else changes. */
  lemma LoginAdds(cfg: Config, s: State, name: string, token: int, ip: int, now: real)
    ensures var s' := Step(cfg, s, LoginEv(name, token, ip, now));
            if |s.sessions| < cfg.maxUsers && cfg.lower(name) !in s.nameToSession then
              && s.next.session in s'.sessions && s'.sessions.Keys == s.sessions.Keys + {s.next.session}
              && (forall sid :: sid in s.sessions && sid != s.next.session ==> s'.sessions[sid] == s.sessions[sid])
              && var x := s'.sessions[s.next.session];
                 && x.userId == s.next.user && x.username == name && x.channelId == 0 && !x.sharing && x.watching == None
                 && x.udpAddr == None && x.udpToken == token && x.peerIp == ip
                 && x.passwordRate == Bucket(3.0, 3.0, 1.0, now) && x.createRate == Bucket(1.0, 1.0, 0.2, now)
            else s'.sessions == s.sessions && s'.userToSession == s.userToSession && s'.nameToSession == s.nameToSession
  {
    var e := LoginEv(name, token, ip, now);
    assert Step(cfg, s, e) == Login(cfg, s, name, token, ip, now);
    hide Step;
    if |s.sessions| < cfg.maxUsers && cfg.lower(name) !in s.nameToSession {
      var x := Session(s.next.user, name, 0, false, None, None, token, ip, Bucket(3.0, 3.0, 1.0, now), Bucket(1.0, 1.0, 0.2, now));
      assert Login(cfg, s, name, token, ip, now).sessions == s.sessions[s.next.session := x];
    }
  }

  // ---------------------------------------------------------------- from start-up on

  lemma InitialIsInvariant(cfg: Config, entries: seq<ChannelEntry>)
    requires |entries| < U32 - 1
    ensures Invariant(cfg, Initial(entries))
  {
  }

  /** The invariant holds after every run in which the numbers drawn are harmless. */
  lemma EveryRunIsInvariant(cfg: Config, entries: seq<ChannelEntry>, es: seq<Event>)
    requires |entries| < U32 - 1 && AllDrawsHarmless(cfg, Initial(entries), es)
    ensures Invariant(cfg, Run(cfg, Initial(entries), es))
  {
    hide Invariant;
    InitialIsInvariant(cfg, entries);
    RunKeepsInvariant(cfg, Initial(entries), es);
  }

  /**
   Membership in every run, kicks and timers included: a member is connected and sits in that channel
   according to its session, so nobody is in two; whoever's session names a channel other than General
   is a member of it; counts are right and limits kept; occupied channels exist and have no delete
   timer running; General is always there, without a password.
   */
  lemma MembershipInEveryRun(cfg: Config, entries: seq<ChannelEntry>, es: seq<Event>)
    requires |entries| < U32 - 1 && AllDrawsHarmless(cfg, Initial(entries), es)
    ensures var s := Run(cfg, Initial(entries), es);
            && MembersOk(s.sessions, s.userToSession, s.channels)
            && (forall c, c', u :: c in s.channels && c' in s.channels ==>
                  (u in s.channels[c].members && u in s.channels[c'].members ==> c == c'))
            && (forall c, sid :: c in s.channels && sid in s.sessions && c != GENERAL ==>
                  (s.sessions[sid].userId in s.channels[c].members <==> s.sessions[sid].channelId == c))
            && (forall sid :: sid in s.sessions ==> s.sessions[sid].channelId in s.channels)
            && (forall c :: c in s.channels ==>
                  && s.channels[c].userCount == |s.channels[c].members|
                  && (s.channels[c].maxUsers > 0 ==> |s.channels[c].members| <= s.channels[c].maxUsers)
                  && |s.channels[c].invited| <= 50)
            && (forall t :: t in s.timers ==> s.timers[t] in s.channels && s.channels[s.timers[t]].members == {})
            && GENERAL in s.channels && s.channels[GENERAL].password.None? && !s.channels[GENERAL].hasPassword
  {
    EveryRunIsInvariant(cfg, entries, es);
    InvariantMeans(cfg, Run(cfg, Initial(entries), es));
  }

  lemma InvariantMeans(cfg: Config, s: State)
    requires Invariant(cfg, s)
    ensures forall c, c', u :: c in s.channels && c' in s.channels ==>
              (u in s.channels[c].members && u in s.channels[c'].members ==> c == c')
    ensures forall c, sid :: c in s.channels && sid in s.sessions && c != GENERAL ==>
              (s.sessions[sid].userId in s.channels[c].members <==> s.sessions[sid].channelId == c)
    ensures forall t :: t in s.timers ==> s.timers[t] in s.channels && s.channels[s.timers[t]].members == {}
    ensures ChannelsOk(s.channels) && Housed(s.sessions, s.channels)
    ensures s.channels[GENERAL].password.None? && !s.channels[GENERAL].hasPassword
    ensures forall c :: c in s.channels ==> ChannelOk(c, s.channels[c])
  {
    hide NamesOk, Numbered, AddressesOk;
    forall c, c', u | c in s.channels && c' in s.channels && u in s.channels[c].members && u in s.channels[c'].members
      ensures c == c'
    {
      assert s.sessions[s.userToSession[u]].channelId == c;
    }
    forall c, sid | c in s.channels && sid in s.sessions && c != GENERAL
      ensures s.sessions[sid].userId in s.channels[c].members <==> s.sessions[sid].channelId == c
    {
      assert s.userToSession[s.sessions[sid].userId] == sid;
    }
    forall t | t in s.timers
      ensures s.channels[s.timers[t]].members == {}
    {
      assert ChannelOk(s.timers[t], s.channels[s.timers[t]]);
    }
    assert ChannelOk(GENERAL, s.channels[GENERAL]);
  }
}
