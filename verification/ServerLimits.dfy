/**
 Who is connected, and how often a client can try a password: whatever else happens on the server, its
 attempts come out of one token bucket, so that in any stretch of any run there are at most three and
 one more per second.
 */
module ServerLimits {
  import opened Wrappers
  import opened Bytes
  import opened RateLimiting
  import opened ServerModel
  import opened ServerInvariants
  import opened ServerNumbers
  import opened ServerRuns
  import opened ServerRooms
  import opened ServerAccess

  /** Every session that is still there has the buckets it had. */
  ghost predicate KeepsBuckets(s: State, s': State) {
    forall x :: x in s.sessions && x in s'.sessions ==>
      s'.sessions[x].passwordRate == s.sessions[x].passwordRate && s'.sessions[x].createRate == s.sessions[x].createRate
  }

  /** ... and every session is still there. */
  ghost predicate KeepsAllBuckets(s: State, s': State) {
    s'.sessions.Keys == s.sessions.Keys && KeepsBuckets(s, s')
  }

  lemma KeepsCompose(s: State, s1: State, s2: State)
    requires KeepsAllBuckets(s, s1) && KeepsAllBuckets(s1, s2)
    ensures KeepsAllBuckets(s, s2)
  {
  }

  lemma SameSessionsKeep(s: State, s': State)
    requires s'.sessions == s.sessions
    ensures KeepsAllBuckets(s, s')
  {
  }

  lemma EndShareKeepsBuckets(s: State, uid: UserId, c: ChannelId)
    ensures KeepsAllBuckets(s, EndShare(s, uid, c))
  {
    hide SessionsOf;
  }

  lemma UnmarkKeepsBuckets(s: State, sid: SessionId)
    ensures KeepsAllBuckets(s, Unmark(s, sid))
  {
  }

  lemma SetWatchingKeepsBuckets(s: State, sid: SessionId, sharer: Option<UserId>)
    ensures KeepsAllBuckets(s, SetWatching(s, sid, sharer))
  {
  }

  lemma RemoveViewerSameSessions(s: State, viewer: UserId, sharer: UserId, c: ChannelId)
    ensures RemoveViewer(s, viewer, sharer, c).sessions == s.sessions
  {
  }

  lemma StopAsViewerKeepsBuckets(s: State, uid: UserId, sid: SessionId, c: ChannelId)
    ensures KeepsAllBuckets(s, StopAsViewer(s, uid, sid, c))
  {
    hide RemoveViewer, KeepsAllBuckets, SetWatching;
    SameSessionsKeep(s, s);
    if sid in s.sessions && s.sessions[sid].watching.Some? {
      var s1 := RemoveViewer(s, uid, s.sessions[sid].watching.value, c);
      RemoveViewerSameSessions(s, uid, s.sessions[sid].watching.value, c);
      SameSessionsKeep(s, s1);
      SetWatchingKeepsBuckets(s1, sid, None);
      KeepsCompose(s, s1, SetWatching(s1, sid, None));
    }
  }

  lemma CleanupKeepsBuckets(s: State, uid: UserId, sid: SessionId, c: ChannelId)
    ensures KeepsAllBuckets(s, CleanupShares(s, uid, sid, c))
  {
    hide EndShare, Unmark, StopAsViewer, KeepsAllBuckets;
    SameSessionsKeep(s, s);
    if c in s.channels {
      var s1 := EndShare(s, uid, c);
      EndShareKeepsBuckets(s, uid, c);
      UnmarkKeepsBuckets(s1, sid);
      StopAsViewerKeepsBuckets(Unmark(s1, sid), uid, sid, c);
      KeepsCompose(s, s1, Unmark(s1, sid));
      KeepsCompose(s, Unmark(s1, sid), StopAsViewer(Unmark(s1, sid), uid, sid, c));
    }
  }

  lemma LeaveAndTimeSameSessions(s: State, uid: UserId, sid: SessionId)
    ensures LeaveAndTime(s, uid, sid).sessions == s.sessions
  {
    hide LeaveAndTime;
    LeaveAndTimeIsLocal(s, uid, sid);
  }

  lemma DepartKeepsBuckets(s: State, uid: UserId, sid: SessionId, target: ChannelId)
    ensures KeepsAllBuckets(s, Depart(s, uid, sid, target))
  {
    hide CleanupShares, LeaveAndTime, KeepsAllBuckets;
    var c := ChannelOf(s, sid);
    var s1 := if c != target && c != GENERAL then CleanupShares(s, uid, sid, c) else s;
    SameSessionsKeep(s, s);
    CleanupKeepsBuckets(s, uid, sid, c);
    LeaveAndTimeSameSessions(s1, uid, sid);
    SameSessionsKeep(s1, LeaveAndTime(s1, uid, sid));
    KeepsCompose(s, s1, LeaveAndTime(s1, uid, sid));
  }

  lemma PutInKeepsBuckets(s: State, uid: UserId, sid: SessionId, c: ChannelId)
    requires c in s.channels
    ensures KeepsAllBuckets(s, PutIn(s, uid, sid, c))
  {
  }

  lemma JoinKeepsBuckets(cfg: Config, s: State, uid: UserId, sid: SessionId, c: ChannelId, attempt: Option<string>)
    ensures KeepsAllBuckets(s, Join(cfg, s, uid, sid, c, attempt))
  {
    hide PutIn, KeepsAllBuckets;
    assert ValidateJoin(cfg, s, c, attempt, uid) != Some(NoSuchChannel) ==> c in s.channels;
    hide ValidateJoin;
    SameSessionsKeep(s, Join(cfg, s, uid, sid, c, attempt).(sessions := s.sessions));
    if ValidateJoin(cfg, s, c, attempt, uid).None? {
      PutInKeepsBuckets(s, uid, sid, c);
    } else {
      SameSessionsKeep(s, Join(cfg, s, uid, sid, c, attempt));
    }
  }

  /** A join charges the password bucket if a password was given, and touches no other. */
  lemma JoinCharges(cfg: Config, s: State, uid: UserId, sid: SessionId, c: ChannelId, attempt: Option<string>, now: real)
    ensures KeepsAllBuckets(ChargePassword(s, sid, attempt, now), HandleJoin(cfg, s, uid, sid, c, attempt, now))
  {
    hide KeepsAllBuckets, Depart, Join, ChargePassword, ValidateJoin, PasswordAllowed;
    var s0 := ChargePassword(s, sid, attempt, now);
    var s1 := Depart(s0, uid, sid, c);
    var s2 := Join(cfg, s1, uid, sid, c, attempt);
    SameSessionsKeep(s0, s0);
    DepartKeepsBuckets(s0, uid, sid, c);
    JoinKeepsBuckets(cfg, s1, uid, sid, c, attempt);
    KeepsCompose(s0, s1, s2);
    JoinKeepsBuckets(cfg, s2, uid, sid, GENERAL, None);
    KeepsCompose(s0, s2, Join(cfg, s2, uid, sid, GENERAL, None));
  }

  // ---------------------------------------------------------------- one event

  /** The event tries a password for session sid: to join a channel, or to enter one it founds. */
  ghost predicate Tries(cfg: Config, s: State, e: Event, sid: SessionId) {
    && sid in s.sessions
    && ((e.JoinEv? && e.sid == sid && e.attempt.Some?)
        || (Founds(cfg, s, e, s.next.channel) && e.sid == sid && e.attempt.Some?))
  }

  /** What becomes of the two buckets of a session. */
  ghost predicate Charged(cfg: Config, s: State, e: Event, s': State, sid: SessionId)
    requires sid in s.sessions && sid in s'.sessions
  {
    var x, y := s.sessions[sid], s'.sessions[sid];
    && y.passwordRate == (if Tries(cfg, s, e, sid) then TryConsume(x.passwordRate, e.now).0 else x.passwordRate)
    && y.createRate == (if e.CreateEv? && e.sid == sid then TryConsume(x.createRate, e.now).0 else x.createRate)
  }

  lemma KeptIsCharged(cfg: Config, s: State, e: Event, s': State, sid: SessionId)
    requires KeepsBuckets(s, s') && sid in s.sessions && sid in s'.sessions && !e.JoinEv? && !e.CreateEv?
    ensures Charged(cfg, s, e, s', sid)
  {
  }

  lemma JoinIsCharged(cfg: Config, s: State, e: Event, sid: SessionId)
    requires e.JoinEv? && e.sid in s.sessions && sid in s.sessions
    ensures var s' := HandleMessage(cfg, s, s.sessions[e.sid].userId, e);
            sid in s'.sessions && Charged(cfg, s, e, s', sid)
  {
    hide HandleJoin, TryConsume;
    JoinCharges(cfg, s, s.sessions[e.sid].userId, e.sid, e.c, e.attempt, e.now);
  }

  lemma CreateIsCharged(cfg: Config, s: State, e: Event, sid: SessionId)
    requires e.CreateEv? && e.sid in s.sessions && sid in s.sessions
    ensures var s' := HandleMessage(cfg, s, s.sessions[e.sid].userId, e);
            sid in s'.sessions && Charged(cfg, s, e, s', sid)
  {
    var uid, s0, name := s.sessions[e.sid].userId, ChargeCreate(s, e.sid, e.now), Trim(e.name);
    TriesAre(s, e.sid, e.attempt, e.now);
    CreationIs(cfg, s, name);
    ChargeCreateIs(cfg, s, uid, e.sid, name, e.attempt, e.now);
    hide TryConsume, HasToken, GoodName, RoomsOf, ChannelCreated, CreateAllowed, Replaceable, HandleCreate, KeepsAllBuckets;
    if MayOpen(cfg, RoomsOf(s), s.sessions[e.sid], name, e.now) {
      FoundingCharges(cfg, s0, uid, e.sid, name, e.attempt, e.now);
      ChargedTwice(cfg, s, e, HandleMessage(cfg, s, uid, e), sid);
    } else if CreateAllowed(s, e.sid, e.now) {
      RefusedCreation(cfg, s0, uid, e.sid, name, e.attempt, e.now);
    }
  }

  lemma FoundingCharges(cfg: Config, s: State, uid: UserId, sid: SessionId, name: string, password: Option<string>, now: real)
    requires ChannelCreated(cfg, s, name)
    ensures KeepsAllBuckets(ChargePassword(s, sid, password, now), HandleCreate(cfg, s, uid, sid, name, password, now))
  {
    hide HandleJoin, NameAccepted, CreateRefusal, TryConsume, KeepsAllBuckets;
    var s1 := Create(cfg, s, name, password, uid);
    JoinCharges(cfg, s1, uid, sid, s.next.channel, password, now);
    SameCharge(s, s1, sid, password, now);
    KeepsCompose(ChargePassword(s, sid, password, now), ChargePassword(s1, sid, password, now), HandleCreate(cfg, s, uid, sid, name, password, now));
  }

  lemma SameCharge(s: State, s1: State, sid: SessionId, password: Option<string>, now: real)
    requires s1.sessions == s.sessions
    ensures KeepsAllBuckets(ChargePassword(s, sid, password, now), ChargePassword(s1, sid, password, now))
  {
    hide TryConsume, KeepsAllBuckets;
    var a, b := ChargePassword(s, sid, password, now), ChargePassword(s1, sid, password, now);
    assert a.sessions == b.sessions;
    SameSessionsKeep(a, b);
  }

  lemma ChargedTwice(cfg: Config, s: State, e: Event, s': State, sid: SessionId)
    requires e.CreateEv? && e.sid in s.sessions && sid in s.sessions && Founds(cfg, s, e, s.next.channel)
    requires KeepsAllBuckets(ChargePassword(ChargeCreate(s, e.sid, e.now), e.sid, e.attempt, e.now), s')
    ensures sid in s'.sessions && Charged(cfg, s, e, s', sid)
  {
    hide TryConsume, MayOpen;
  }

  lemma KickKeepsBuckets(cfg: Config, s: State, requester: UserId, c: ChannelId, target: UserId)
    ensures KeepsAllBuckets(s, HandleKick(cfg, s, requester, c, target))
  {
    hide Join, KeepsAllBuckets, KickRefusal;
    var s1 := Kick(s, c, requester, target);
    SameSessionsKeep(s, s1);
    if KickRefusal(s, c, requester, target).None? {
      KickedHasSession(s, c, requester, target);
      var s2 := Join(cfg, s1, target, s.userToSession[target], GENERAL, None);
      JoinKeepsBuckets(cfg, s1, target, s.userToSession[target], GENERAL, None);
      KeepsCompose(s, s1, s2);
      SameSessionsKeep(s2, StartDeleteTimer(s2, c));
      KeepsCompose(s, s2, StartDeleteTimer(s2, c));
    }
  }

  lemma KickedHasSession(s: State, c: ChannelId, requester: UserId, target: UserId)
    requires KickRefusal(s, c, requester, target).None?
    ensures target in s.userToSession
  {
  }

  lemma DisconnectKeepsBuckets(cfg: Config, s: State, uid: UserId, sid: SessionId)
    ensures KeepsBuckets(s, Disconnect(cfg, s, uid, sid))
    ensures Disconnect(cfg, s, uid, sid).sessions.Keys == s.sessions.Keys - {sid}
  {
    hide CleanupShares, LeaveAndTime;
    var c := ChannelOf(s, sid);
    var s1 := if c != GENERAL then CleanupShares(s, uid, sid, c) else s;
    CleanupKeepsBuckets(s, uid, sid, c);
    LeaveAndTimeSameSessions(s1, uid, sid);
    RemoveSessionKeepsBuckets(cfg, LeaveAndTime(s1, uid, sid), sid);
    hide RemoveSession;
  }

  lemma RemoveSessionKeepsBuckets(cfg: Config, s: State, sid: SessionId)
    ensures KeepsBuckets(s, RemoveSession(cfg, s, sid)) && RemoveSession(cfg, s, sid).sessions.Keys == s.sessions.Keys - {sid}
  {
  }

  lemma SharingKeepsBuckets(cfg: Config, s: State, uid: UserId, e: Event)
    requires e.StartShareEv? || e.StopShareEv? || e.WatchEv? || e.StopWatchingEv?
    ensures KeepsAllBuckets(s, HandleMessage(cfg, s, uid, e))
  {
    hide KeepsAllBuckets, EndShare, Unmark, SetWatching, RemoveViewer, AddViewer;
    var c := ChannelOf(s, e.sid);
    SameSessionsKeep(s, s);
    if e.StartShareEv? {
      StartShareKeepsBuckets(s, uid, e.sid, c, e.resolution);
    } else if e.StopShareEv? {
      UnmarkKeepsBuckets(s, e.sid);
      EndShareKeepsBuckets(Unmark(s, e.sid), uid, c);
      KeepsCompose(s, Unmark(s, e.sid), EndShare(Unmark(s, e.sid), uid, c));
    } else if e.WatchEv? {
      WatchKeepsBuckets(s, uid, e.sid, e.sharer, c);
    } else {
      StopWatchingKeepsBuckets(s, uid, e.sid, c);
    }
  }

  lemma StartShareKeepsBuckets(s: State, uid: UserId, sid: SessionId, c: ChannelId, resolution: int)
    ensures KeepsAllBuckets(s, StartShare(s, uid, sid, c, resolution))
  {
  }

  lemma AddViewerSameSessions(s: State, viewer: UserId, sharer: UserId, c: ChannelId)
    ensures AddViewer(s, viewer, sharer, c).sessions == s.sessions
  {
  }

  lemma WatchKeepsBuckets(s: State, viewer: UserId, sid: SessionId, sharer: UserId, c: ChannelId)
    ensures KeepsAllBuckets(s, Watch(s, viewer, sid, sharer, c))
  {
    hide KeepsAllBuckets, SetWatching, RemoveViewer, AddViewer;
    SameSessionsKeep(s, s);
    if sid in s.sessions {
      var s1 := LeavePrevious(s, viewer, sid, sharer, c);
      if s.sessions[sid].watching.Some? {
        RemoveViewerSameSessions(s, viewer, s.sessions[sid].watching.value, c);
      }
      SameSessionsKeep(s, s1);
      var s2 := SetWatching(s1, sid, Some(sharer));
      SetWatchingKeepsBuckets(s1, sid, Some(sharer));
      AddViewerSameSessions(s2, viewer, sharer, c);
      SameSessionsKeep(s2, AddViewer(s2, viewer, sharer, c));
      KeepsCompose(s, s1, s2);
      KeepsCompose(s, s2, AddViewer(s2, viewer, sharer, c));
    }
  }

  lemma StopWatchingKeepsBuckets(s: State, viewer: UserId, sid: SessionId, c: ChannelId)
    ensures KeepsAllBuckets(s, StopWatching(s, viewer, sid, c))
  {
    hide KeepsAllBuckets, SetWatching, RemoveViewer;
    SameSessionsKeep(s, s);
    if sid in s.sessions && s.sessions[sid].watching.Some? {
      var s1 := SetWatching(s, sid, None);
      SetWatchingKeepsBuckets(s, sid, None);
      RemoveViewerSameSessions(s1, viewer, s.sessions[sid].watching.value, c);
      SameSessionsKeep(s1, StopWatching(s, viewer, sid, c));
      KeepsCompose(s, s1, StopWatching(s, viewer, sid, c));
    }
  }

  lemma EditKeepsBuckets(cfg: Config, s: State, uid: UserId, e: Event)
    requires e.PasswordEv? || e.InviteEv? || e.DeclineEv?
    ensures KeepsAllBuckets(s, HandleMessage(cfg, s, uid, e))
  {
    assert HandleMessage(cfg, s, uid, e).sessions == s.sessions;
    hide HandleMessage, KeepsAllBuckets;
    SameSessionsKeep(s, HandleMessage(cfg, s, uid, e));
  }

  lemma ResolveKeepsBuckets(cfg: Config, s: State, src: Addr, claimed: SessionId, token: int)
    ensures KeepsBuckets(s, Resolve(cfg, s, src, claimed, token))
  {
    hide Resolved;
  }

  lemma LoginKeepsBuckets(cfg: Config, s: State, e: Event, sid: SessionId)
    requires e.LoginEv? && sid in s.sessions && sid !in SessionsDrawn(cfg, s, e)
    ensures var s' := Login(cfg, s, e.name, e.token, e.ip, e.now);
            sid in s'.sessions && s'.sessions[sid] == s.sessions[sid]
  {
    hide NewBucket;
  }

  /** One event charges a session's buckets exactly for that session's own attempts. */
  lemma StepCharges(cfg: Config, s: State, e: Event, sid: SessionId)
    requires sid in s.sessions && sid in Step(cfg, s, e).sessions && sid !in SessionsDrawn(cfg, s, e)
    ensures Charged(cfg, s, e, Step(cfg, s, e), sid)
  {
    hide HandleMessage, Login, FireTimer, Resolve, Charged, KeepsBuckets, TryConsume, Tries;
    if e.LoginEv? {
      LoginKeepsBuckets(cfg, s, e, sid);
      AsBefore(cfg, s, e, Step(cfg, s, e), sid);
    } else if e.TimerEv? {
      FireTimerSameSessions(s, e.timer);
      AsBefore(cfg, s, e, Step(cfg, s, e), sid);
    } else if e.DatagramEv? {
      ResolveKeepsBuckets(cfg, s, e.src, e.sid, e.token);
      KeptIsCharged(cfg, s, e, Step(cfg, s, e), sid);
    } else if e.sid in s.sessions {
      StepIsMessage(cfg, s, e);
      MessageCharges(cfg, s, e, sid);
    } else {
      AsBefore(cfg, s, e, s, sid);
    }
  }

  lemma FireTimerSameSessions(s: State, t: TimerId)
    ensures FireTimer(s, t).sessions == s.sessions
  {
  }

  lemma AsBefore(cfg: Config, s: State, e: Event, s': State, sid: SessionId)
    requires sid in s.sessions && sid in s'.sessions && s'.sessions[sid] == s.sessions[sid]
    requires e.LoginEv? || e.TimerEv? || e.DatagramEv? || e.sid !in s.sessions
    ensures Charged(cfg, s, e, s', sid)
  {
    hide TryConsume;
  }

  lemma MessageCharges(cfg: Config, s: State, e: Event, sid: SessionId)
    requires !e.LoginEv? && !e.TimerEv? && !e.DatagramEv? && e.sid in s.sessions && sid in s.sessions
    requires sid in HandleMessage(cfg, s, s.sessions[e.sid].userId, e).sessions
    ensures Charged(cfg, s, e, HandleMessage(cfg, s, s.sessions[e.sid].userId, e), sid)
  {
    var uid := s.sessions[e.sid].userId;
    var s' := HandleMessage(cfg, s, uid, e);
    if e.JoinEv? {
      hide HandleMessage, Charged, KeepsBuckets;
      JoinIsCharged(cfg, s, e, sid);
    } else if e.CreateEv? {
      hide HandleMessage, Charged, KeepsBuckets;
      CreateIsCharged(cfg, s, e, sid);
    } else {
      hide Charged, KeepsBuckets, HandleKick, Disconnect, StartShare, StopShare, Watch, StopWatching;
      if e.KickEv? {
        KickKeepsBuckets(cfg, s, uid, e.c, e.target);
      } else if e.DisconnectEv? {
        DisconnectKeepsBuckets(cfg, s, uid, e.sid);
      } else if e.PasswordEv? || e.InviteEv? || e.DeclineEv? {
        EditKeepsBuckets(cfg, s, uid, e);
      } else {
        SharingKeepsBuckets(cfg, s, uid, e);
      }
      KeptIsCharged(cfg, s, e, s', sid);
    }
  }

  // ---------------------------------------------------------------- who is connected

  /** A login that is accepted: there is room, and nobody has the name, up to letter case. */
  ghost predicate Connects(cfg: Config, s: State, e: Event) {
    && e.LoginEv? && |s.sessions| < cfg.maxUsers
    && forall x :: x in s.sessions ==> cfg.lower(s.sessions[x].username) != cfg.lower(e.name)
  }

  lemma MessageConnections(cfg: Config, s: State, e: Event)
    requires !e.LoginEv? && !e.TimerEv? && !e.DatagramEv? && e.sid in s.sessions
    ensures HandleMessage(cfg, s, s.sessions[e.sid].userId, e).sessions.Keys
            == if e.DisconnectEv? then s.sessions.Keys - {e.sid} else s.sessions.Keys
  {
    var uid := s.sessions[e.sid].userId;
    hide KeepsBuckets, HandleJoin, CreateMessage, HandleKick, Disconnect, StartShare, StopShare, Watch, StopWatching, TryConsume;
    if e.JoinEv? {
      JoinCharges(cfg, s, uid, e.sid, e.c, e.attempt, e.now);
    } else if e.CreateEv? {
      CreationConnectsNobody(cfg, s, e);
    } else if e.KickEv? {
      KickKeepsBuckets(cfg, s, uid, e.c, e.target);
    } else if e.DisconnectEv? {
      DisconnectKeepsBuckets(cfg, s, uid, e.sid);
    } else if e.PasswordEv? || e.InviteEv? || e.DeclineEv? {
      EditKeepsBuckets(cfg, s, uid, e);
    } else {
      SharingKeepsBuckets(cfg, s, uid, e);
    }
  }

  lemma CreationConnectsNobody(cfg: Config, s: State, e: Event)
    requires e.CreateEv? && e.sid in s.sessions
    ensures HandleMessage(cfg, s, s.sessions[e.sid].userId, e).sessions.Keys == s.sessions.Keys
  {
    StepIsMessage(cfg, s, e);
    StepContinues(cfg, s, e);
    hide HandleMessage, Step, Charged, SameClient;
    forall sid | sid in s.sessions
      ensures sid in HandleMessage(cfg, s, s.sessions[e.sid].userId, e).sessions
    {
      CreateIsCharged(cfg, s, e, sid);
    }
  }

  lemma NameIsFree(cfg: Config, s: State, name: string)
    requires Invariant(cfg, s)
    ensures cfg.lower(name) !in s.nameToSession <==>
            forall x :: x in s.sessions ==> cfg.lower(s.sessions[x].username) != cfg.lower(name)
  {
    assert NamesOk(cfg, s.sessions, s.nameToSession);
    hide Invariant;
  }

  lemma LoginConnects(cfg: Config, s: State, e: Event)
    requires Invariant(cfg, s) && e.LoginEv?
    ensures Step(cfg, s, e).sessions.Keys == s.sessions.Keys + (if Connects(cfg, s, e) then {s.next.session} else {})
  {
    NameIsFree(cfg, s, e.name);
    LoginAdds(cfg, s, e.name, e.token, e.ip, e.now);
    hide Invariant, Step;
    assert e == LoginEv(e.name, e.token, e.ip, e.now);
  }

  /** What becomes of the connections after any other event. */
  lemma OthersConnectNobody(cfg: Config, s: State, e: Event)
    requires !e.LoginEv?
    ensures Step(cfg, s, e).sessions.Keys == s.sessions.Keys - (if e.DisconnectEv? then {e.sid} else {})
  {
    hide HandleMessage, FireTimer, Resolve;
    if e.TimerEv? {
      FireTimerSameSessions(s, e.timer);
    } else if e.DatagramEv? {
      ResolveConnections(cfg, s, e.src, e.sid, e.token);
    } else if e.sid in s.sessions {
      StepIsMessage(cfg, s, e);
      MessageConnections(cfg, s, e);
    }
  }

  /** Which sessions there are after an event, for every event there is. */
  lemma ConnectedStepIff(cfg: Config, s: State, e: Event, sid: SessionId)
    requires Invariant(cfg, s)
    ensures sid in Step(cfg, s, e).sessions <==>
            (Connects(cfg, s, e) && sid == s.next.session) || (sid in s.sessions && e != DisconnectEv(sid))
  {
    hide Invariant, Step;
    if e.LoginEv? {
      LoginConnects(cfg, s, e);
    } else {
      OthersConnectNobody(cfg, s, e);
    }
  }

  lemma ResolveConnections(cfg: Config, s: State, src: Addr, claimed: SessionId, token: int)
    ensures Resolve(cfg, s, src, claimed, token).sessions.Keys == s.sessions.Keys
  {
    hide Resolved;
  }

  /** A client that left can come back under its name, in a new session. */
  lemma NamesComeBack(cfg: Config, s: State, sid: SessionId, token: int, ip: int, now: real)
    requires Invariant(cfg, s) && sid in s.sessions && |s.sessions| <= cfg.maxUsers
    ensures var s' := Step(cfg, s, DisconnectEv(sid));
            s'.next.session in Step(cfg, s', LoginEv(s.sessions[sid].username, token, ip, now)).sessions
  {
    var e, s' := DisconnectEv(sid), Step(cfg, s, DisconnectEv(sid));
    var back := LoginEv(s.sessions[sid].username, token, ip, now);
    hide Invariant, Step, Connects;
    StepKeepsInvariantIff(cfg, s, e);
    OthersConnectNobody(cfg, s, e);
    NamesDiffer(cfg, s, sid);
    DisconnectKeepsNames(cfg, s, sid);
    NameLeft(cfg, s, sid, s', back);
    LoginConnects(cfg, s', back);
  }

  lemma NameLeft(cfg: Config, s: State, sid: SessionId, s': State, back: Event)
    requires sid in s.sessions && |s.sessions| <= cfg.maxUsers && s'.sessions.Keys == s.sessions.Keys - {sid}
    requires forall x :: x in s.sessions && x != sid ==> cfg.lower(s.sessions[x].username) != cfg.lower(s.sessions[sid].username)
    requires forall x :: x in s'.sessions ==> x in s.sessions && s'.sessions[x].username == s.sessions[x].username
    requires back.LoginEv? && back.name == s.sessions[sid].username
    ensures Connects(cfg, s', back)
  {
    assert |s'.sessions.Keys| == |s.sessions.Keys| - 1;
  }

  lemma NamesDiffer(cfg: Config, s: State, sid: SessionId)
    requires Invariant(cfg, s) && sid in s.sessions
    ensures forall x :: x in s.sessions && x != sid ==> cfg.lower(s.sessions[x].username) != cfg.lower(s.sessions[sid].username)
  {
    assert NamesOk(cfg, s.sessions, s.nameToSession);
    hide Invariant;
    forall x | x in s.sessions && x != sid
      ensures cfg.lower(s.sessions[x].username) != cfg.lower(s.sessions[sid].username)
    {
      assert s.nameToSession[cfg.lower(s.sessions[x].username)] == x;
    }
  }

  lemma DisconnectKeepsNames(cfg: Config, s: State, sid: SessionId)
    ensures var s' := Step(cfg, s, DisconnectEv(sid));
            forall x :: x in s'.sessions ==> x in s.sessions && s'.sessions[x].username == s.sessions[x].username
  {
    hide Step;
    var s' := Step(cfg, s, DisconnectEv(sid));
    StepContinues(cfg, s, DisconnectEv(sid));
    assert forall x :: x in s'.sessions ==> x in s.sessions && SameClient(s.sessions[x], s'.sessions[x]);
  }

  // ---------------------------------------------------------------- runs

  /** When session sid tried passwords in a run, whether it was let or not. */
  ghost function TryTimes(cfg: Config, s: State, es: seq<Event>, sid: SessionId): seq<real>
    decreases |es|
  {
    if es == [] then []
    else (if Tries(cfg, s, es[0], sid) then [es[0].now] else []) + TryTimes(cfg, Step(cfg, s, es[0]), es[1..], sid)
  }

  /** How many of its attempts were compared with a password, rather than refused by the limit. */
  ghost function Guesses(cfg: Config, s: State, es: seq<Event>, sid: SessionId): nat
    decreases |es|
  {
    if es == [] then 0
    else (if Tries(cfg, s, es[0], sid) && HasToken(s.sessions[sid].passwordRate, es[0].now) then 1 else 0)
         + Guesses(cfg, Step(cfg, s, es[0]), es[1..], sid)
  }

  lemma TriesAreTimed(cfg: Config, s: State, e: Event, sid: SessionId)
    requires Tries(cfg, s, e, sid)
    ensures e.JoinEv? || e.CreateEv?
  {
  }

  lemma NobodyTriesNothing(cfg: Config, s: State, e: Event, sid: SessionId)
    requires sid !in s.sessions
    ensures !Tries(cfg, s, e, sid)
  {
  }

  /** The guesses of a run are what the token bucket of the session allows at those times. */
  lemma {:induction false} GuessesAreAllowed(cfg: Config, s: State, es: seq<Event>, sid: SessionId)
    requires sid in s.sessions && NeverDrawn(cfg, s, es, sid)
    ensures Guesses(cfg, s, es, sid) == Allowed(s.sessions[sid].passwordRate, TryTimes(cfg, s, es, sid))
    decreases |es|
  {
    hide Step, Tries, HasToken, TryConsume, SessionsDrawn, Founds;
    if es != [] {
      var e, s1 := es[0], Step(cfg, s, es[0]);
      var b, rest := s.sessions[sid].passwordRate, TryTimes(cfg, s1, es[1..], sid);
      if Tries(cfg, s, e, sid) {
        TriesAreTimed(cfg, s, e, sid);
        TokenIsHad(b, e.now);
        assert ([e.now] + rest)[1..] == rest;
      }
      if sid in s1.sessions {
        StepCharges(cfg, s, e, sid);
        GuessesAreAllowed(cfg, s1, es[1..], sid);
      } else {
        GoneTriesNothing(cfg, s1, es[1..], sid);
      }
      if !Tries(cfg, s, e, sid) {
        assert [] + rest == rest;
      }
    }
  }

  lemma {:induction false} GoneTriesNothing(cfg: Config, s: State, es: seq<Event>, sid: SessionId)
    requires sid !in s.sessions && NeverDrawn(cfg, s, es, sid)
    ensures Guesses(cfg, s, es, sid) == 0 && TryTimes(cfg, s, es, sid) == []
    decreases |es|
  {
    hide Step, Tries, HasToken, SessionsDrawn, SameClient;
    if es != [] {
      NobodyTriesNothing(cfg, s, es[0], sid);
      StepContinues(cfg, s, es[0]);
      GoneTriesNothing(cfg, Step(cfg, s, es[0]), es[1..], sid);
    }
  }

  // ----- the buckets that sessions have -----

  /** Every session has a bucket of three attempts and one more per second. */
  ghost predicate BucketsOk(s: State) {
    forall x :: x in s.sessions ==>
      var b := s.sessions[x].passwordRate;
      0.0 <= b.tokens <= 3.0 && b.maxTokens == 3.0 && b.refillRate == 1.0
  }

  lemma ConsumeKeeps(b: Bucket, now: real)
    requires 0.0 <= b.tokens <= 3.0 && b.maxTokens == 3.0 && b.refillRate == 1.0
    ensures var b' := TryConsume(b, now).0; 0.0 <= b'.tokens <= 3.0 && b'.maxTokens == 3.0 && b'.refillRate == 1.0
  {
    StepKeepsSound(b, now);
  }

  lemma StepKeepsBucketsOk(cfg: Config, s: State, e: Event)
    requires BucketsOk(s)
    ensures BucketsOk(Step(cfg, s, e))
  {
    hide Step, TryConsume, Tries;
    var s' := Step(cfg, s, e);
    StepContinues(cfg, s, e);
    forall x | x in s'.sessions
      ensures var b := s'.sessions[x].passwordRate; 0.0 <= b.tokens <= 3.0 && b.maxTokens == 3.0 && b.refillRate == 1.0
    {
      if x in SessionsDrawn(cfg, s, e) {
        NewSessionsBucket(cfg, s, e);
      } else {
        StepCharges(cfg, s, e, x);
        if Tries(cfg, s, e, x) {
          TriesAreTimed(cfg, s, e, x);
          ConsumeKeeps(s.sessions[x].passwordRate, e.now);
        }
      }
    }
  }

  lemma NewSessionsBucket(cfg: Config, s: State, e: Event)
    requires e.LoginEv? && LoggedIn(cfg, s, e.name)
    ensures var s' := Step(cfg, s, e);
            s.next.session in s'.sessions && s'.sessions[s.next.session].passwordRate == Bucket(3.0, 3.0, 1.0, e.now)
  {
    LoginAdds(cfg, s, e.name, e.token, e.ip, e.now);
    hide Step;
  }

  lemma {:induction false} RunKeepsBucketsOk(cfg: Config, s: State, es: seq<Event>)
    requires BucketsOk(s)
    ensures BucketsOk(Run(cfg, s, es))
    decreases |es|
  {
    hide Step, BucketsOk;
    if es != [] {
      StepKeepsBucketsOk(cfg, s, es[0]);
      RunKeepsBucketsOk(cfg, Step(cfg, s, es[0]), es[1..]);
    }
  }

  /**
   In any stretch of any run from start-up on, a session gets at most three guesses at passwords and
   one more for every second between its first and its last attempt, whatever the others do.
   */
  lemma GuessesAreBounded(cfg: Config, entries: seq<ChannelEntry>, before: seq<Event>, stretch: seq<Event>, sid: SessionId)
    requires |entries| < U32 - 1
    requires var s := Run(cfg, Initial(entries), before);
             var ts := TryTimes(cfg, s, stretch, sid);
             sid in s.sessions && NeverDrawn(cfg, s, stretch, sid) && ts != [] && Ascending(ts)
    ensures var s := Run(cfg, Initial(entries), before);
            var ts := TryTimes(cfg, s, stretch, sid);
            Guesses(cfg, s, stretch, sid) as real <= 3.0 + (ts[|ts| - 1] - ts[0])
  {
    hide Run, TryTimes, Guesses, NeverDrawn, Ascending;
    var s := Run(cfg, Initial(entries), before);
    BucketsAtFirst(entries);
    RunKeepsBucketsOk(cfg, Initial(entries), before);
    GuessesAreAllowed(cfg, s, stretch, sid);
    hide Allowed, Initial;
    AllowedIsBounded(s.sessions[sid].passwordRate, TryTimes(cfg, s, stretch, sid));
  }

  lemma BucketsAtFirst(entries: seq<ChannelEntry>)
    requires |entries| < U32 - 1
    ensures BucketsOk(Initial(entries))
  {
  }

  lemma AllowedIsBounded(b: Bucket, ts: seq<real>)
    requires 0.0 <= b.tokens <= 3.0 && b.maxTokens == 3.0 && b.refillRate == 1.0 && ts != [] && Ascending(ts)
    ensures Allowed(b, ts) as real <= 3.0 + (ts[|ts| - 1] - ts[0])
  {
    BoundedWindow(b, ts);
    assert Spent(b, ts) == Allowed(b, ts) as real;
    hide Spent, Allowed;
  }
}
