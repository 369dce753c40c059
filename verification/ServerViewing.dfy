/**
 Who shares and who watches after every event, exactly: watching puts a viewer on one list and takes it
 off the others, and nothing but the end of the share or a departure undoes it. And what that means for
 the video that is sent.
 */
module ServerViewing {
  import opened Wrappers
  import opened Bytes
  import opened RateLimiting
  import opened ServerModel
  import opened ServerInvariants
  import opened ServerNumbers
  import opened ServerRuns
  import opened ServerRooms
  import opened ServerAccess
  import opened ServerShares
  import opened ServerRouting

  ghost predicate Shares(s: State, c: ChannelId, u: UserId) {
    c in s.channels && u in s.channels[c].shares
  }

  ghost predicate Watches(s: State, c: ChannelId, u: UserId, v: UserId) {
    Views(s.channels, c, u, v)
  }

  /** u goes elsewhere: into another channel, into one it founds, or away. */
  ghost predicate Departs(cfg: Config, s: State, e: Event, u: UserId) {
    IsFrom(s, e, u) &&
    (|| (&& e.JoinEv? && e.c != s.sessions[e.sid].channelId
         && LetsIn(cfg, RoomsOf(s), s.sessions[e.sid], e.c, e.attempt, e.now))
     || (Founds(cfg, s, e, s.next.channel) && MayTry(s.sessions[e.sid], e.attempt, e.now))
     || e.DisconnectEv?)
  }

  /** What starts a share: the message, from a channel other than General, of a user that shares nothing. */
  ghost predicate Starts(s: State, e: Event, c: ChannelId, u: UserId) {
    && e.StartShareEv? && IsFrom(s, e, u)
    && s.sessions[e.sid].channelId == c && c != GENERAL && !s.sessions[e.sid].sharing
  }

  /** What ends one: the message, a departure, or the end of the channel. */
  ghost predicate Ends(cfg: Config, s: State, e: Event, c: ChannelId, u: UserId) {
    || (e.StopShareEv? && IsFrom(s, e, u))
    || Departs(cfg, s, e, u)
    || Founds(cfg, s, e, c)
  }

  /** What puts v on the list of u's share: the message, from the channel of the share. */
  ghost predicate Tunes(s: State, e: Event, c: ChannelId, u: UserId, v: UserId) {
    && e.WatchEv? && IsFrom(s, e, v) && e.sharer == u
    && s.sessions[e.sid].channelId == c && Shares(s, c, u)
  }

  /** What takes v off every list it is on. */
  ghost predicate TurnsOff(cfg: Config, s: State, e: Event, v: UserId) {
    || ((e.WatchEv? || e.StopWatchingEv?) && IsFrom(s, e, v))
    || Departs(cfg, s, e, v)
  }

  // ---------------------------------------------------------------- steps that change no list

  lemma SameSharesSame(s: State, s': State, c: ChannelId, u: UserId, v: UserId)
    requires SameShares(s, s')
    ensures Shares(s', c, u) == Shares(s, c, u) && Watches(s', c, u, v) == Watches(s, c, u, v)
  {
  }

  lemma SameListsSame(s: State, s': State, c: ChannelId, u: UserId, v: UserId)
    requires s'.channels.Keys == s.channels.Keys && forall x :: x in s.channels ==> s'.channels[x].shares == s.channels[x].shares
    ensures Shares(s', c, u) == Shares(s, c, u) && Watches(s', c, u, v) == Watches(s, c, u, v)
  {
  }

  // ---------------------------------------------------------------- departures

  /** Whatever uid shared or watched is gone, and nothing else. */
  ghost predicate Gone(s: State, s': State, uid: UserId, c: ChannelId, u: UserId, v: UserId) {
    && (Shares(s', c, u) <==> Shares(s, c, u) && u != uid)
    && (Watches(s', c, u, v) <==> Watches(s, c, u, v) && u != uid && v != uid)
  }

  lemma DetachedIsGone(s: State, uid: UserId, sid: SessionId, c: ChannelId, u: UserId, v: UserId)
    requires Detached(s, uid, sid)
    ensures Gone(s, s, uid, c, u, v)
  {
  }

  lemma CleanedIsGone(s: State, uid: UserId, sid: SessionId, c: ChannelId, u: UserId, v: UserId)
    requires UsersOk(s.sessions, s.userToSession) && Housed(s.sessions, s.channels)
    requires ShareInvariant(s) && Owns(s, uid, sid)
    ensures Gone(s, CleanupShares(s, uid, sid, s.sessions[sid].channelId), uid, c, u, v)
  {
    hide CleanupShares, ShareInvariant;
    CleanupDetaches(s, uid, sid);
  }

  lemma GoneThenSame(s: State, s1: State, s2: State, uid: UserId, c: ChannelId, u: UserId, v: UserId)
    requires Gone(s, s1, uid, c, u, v)
    requires s2.channels.Keys == s1.channels.Keys && forall x :: x in s1.channels ==> s2.channels[x].shares == s1.channels[x].shares
    ensures Gone(s, s2, uid, c, u, v)
  {
    SameListsSame(s1, s2, c, u, v);
  }

  lemma DepartIsGone(cfg: Config, s: State, uid: UserId, sid: SessionId, target: ChannelId, c: ChannelId, u: UserId, v: UserId)
    requires Invariant(cfg, s) && ShareInvariant(s) && Owns(s, uid, sid) && s.sessions[sid].channelId != target
    ensures Gone(s, Depart(s, uid, sid, target), uid, c, u, v)
  {
    hide Invariant, ShareInvariant, CleanupShares, LeaveAndTime, Gone;
    var from := s.sessions[sid].channelId;
    InvariantParts(cfg, s);
    var s1 := if from != GENERAL then CleanupShares(s, uid, sid, from) else s;
    if from == GENERAL {
      GeneralIsDetached(s, uid, sid);
      DetachedIsGone(s, uid, sid, c, u, v);
    } else {
      CleanedIsGone(s, uid, sid, c, u, v);
    }
    LeaveAndTimeIsLocal(s1, uid, sid);
    hide OthersStay, NoHarder;
    LeaveAndTimeKeys(s1, uid, sid);
    GoneThenSame(s, s1, LeaveAndTime(s1, uid, sid), uid, c, u, v);
  }

  lemma LeaveAndTimeKeys(s: State, uid: UserId, sid: SessionId)
    ensures LeaveAndTime(s, uid, sid).channels.Keys == s.channels.Keys
  {
    LeaveAndTimeIsLocal(s, uid, sid);
    hide LeaveAndTime;
  }

  lemma StayingSame(s: State, uid: UserId, sid: SessionId, c: ChannelId, u: UserId, v: UserId)
    requires sid in s.sessions
    ensures var s' := Depart(s, uid, sid, s.sessions[sid].channelId);
            Shares(s', c, u) == Shares(s, c, u) && Watches(s', c, u, v) == Watches(s, c, u, v)
  {
    hide LeaveAndTime, Shares, Watches;
    LeaveAndTimeIsLocal(s, uid, sid);
    LeaveAndTimeKeys(s, uid, sid);
    hide OthersStay, NoHarder;
    SameListsSame(s, LeaveAndTime(s, uid, sid), c, u, v);
  }

  lemma PutInSame(s: State, uid: UserId, sid: SessionId, to: ChannelId, c: ChannelId, u: UserId, v: UserId)
    requires to in s.channels
    ensures var s' := PutIn(s, uid, sid, to);
            Shares(s', c, u) == Shares(s, c, u) && Watches(s', c, u, v) == Watches(s, c, u, v)
  {
    hide Shares, Watches;
    PutInChannels(s, uid, sid, to);
    hide PutIn;
    SameListsSame(s, PutIn(s, uid, sid, to), c, u, v);
  }

  lemma ChargeSame(s: State, sid: SessionId, attempt: Option<string>, now: real, c: ChannelId, u: UserId, v: UserId)
    ensures var s' := ChargePassword(s, sid, attempt, now);
            Shares(s', c, u) == Shares(s, c, u) && Watches(s', c, u, v) == Watches(s, c, u, v)
  {
  }

  /** A join that is let in elsewhere takes everything of the user along; any other changes no list. */
  lemma JoinIsGone(cfg: Config, s: State, uid: UserId, sid: SessionId, to: ChannelId, attempt: Option<string>, now: real,
                   c: ChannelId, u: UserId, v: UserId)
    requires Invariant(cfg, s) && ShareInvariant(s) && Owns(s, uid, sid)
    ensures var s' := HandleJoin(cfg, s, uid, sid, to, attempt, now);
            if LetsIn(cfg, RoomsOf(s), s.sessions[sid], to, attempt, now) && to != s.sessions[sid].channelId
            then Gone(s, s', uid, c, u, v)
            else Shares(s', c, u) == Shares(s, c, u) && Watches(s', c, u, v) == Watches(s, c, u, v)
  {
    hide Invariant, ShareInvariant, HandleJoin, PasswordAllowed, ValidateJoin, ChargePassword, Depart, PutIn, Shares, Watches, RoomsOf,
      MayTry, MayEnter, HasSpace, MovedTo, JoinOutcomeOf;
    var s0 := ChargePassword(s, sid, attempt, now);
    JoinIsAllOrNothing(cfg, s, uid, sid, to, attempt, now);
    TriesAre(s, sid, attempt, now);
    ValidationIs(cfg, s, to, attempt, uid);
    RoomKeys(s);
    if to in s.channels {
      RoomsAt(s, to);
    }
    ChargeSame(s, sid, attempt, now, c, u, v);
    if LetsIn(cfg, RoomsOf(s), s.sessions[sid], to, attempt, now) {
      CreatorJoins(cfg, s, uid, sid, to, attempt, now);
      ChargeKeepsInvariant(cfg, s, uid, sid, attempt, now);
      ChargeSameShares(s, sid, attempt, now);
      SameSharesKeeps(s, s0);
      SameSharesSeat(s, s0, sid);
      PutInSame(Depart(s0, uid, sid, to), uid, sid, to, c, u, v);
      if to != s.sessions[sid].channelId {
        DepartIsGone(cfg, s0, uid, sid, to, c, u, v);
      } else {
        StayingSame(s0, uid, sid, c, u, v);
      }
    }
  }

  lemma DisconnectIsGone(cfg: Config, s: State, uid: UserId, sid: SessionId, c: ChannelId, u: UserId, v: UserId)
    requires Invariant(cfg, s) && ShareInvariant(s) && Owns(s, uid, sid)
    ensures Gone(s, Disconnect(cfg, s, uid, sid), uid, c, u, v)
  {
    hide Invariant, ShareInvariant, CleanupShares, LeaveAndTime, RemoveSession, Gone;
    var from := ChannelOf(s, sid);
    InvariantParts(cfg, s);
    var s1 := if from != GENERAL then CleanupShares(s, uid, sid, from) else s;
    if from == GENERAL {
      GeneralIsDetached(s, uid, sid);
      DetachedIsGone(s, uid, sid, c, u, v);
    } else {
      CleanedIsGone(s, uid, sid, c, u, v);
    }
    LeaveAndTimeIsLocal(s1, uid, sid);
    hide OthersStay, NoHarder;
    LeaveAndTimeKeys(s1, uid, sid);
    GoneThenSame(s, s1, LeaveAndTime(s1, uid, sid), uid, c, u, v);
    DisconnectSteps(cfg, s, uid, sid);
    GoneThenSame(s, LeaveAndTime(s1, uid, sid), Disconnect(cfg, s, uid, sid), uid, c, u, v);
  }

  // ---------------------------------------------------------------- creations

  lemma CreatedLists(s: State, name: string, password: Option<string>, uid: UserId, c: ChannelId, u: UserId, v: UserId)
    ensures var s1 := Created(s, name, password, uid);
            && (Shares(s1, c, u) <==> Shares(s, c, u) && c != s.next.channel)
            && (Watches(s1, c, u, v) <==> Watches(s, c, u, v) && c != s.next.channel)
  {
  }

  /** What a creation that is not refused does to the lists. */
  ghost predicate Founded(s: State, s': State, entered: bool, uid: UserId, n: ChannelId, c: ChannelId, u: UserId, v: UserId) {
    && (Shares(s', c, u) <==> Shares(s, c, u) && c != n && !(entered && u == uid))
    && (Watches(s', c, u, v) <==> Watches(s, c, u, v) && c != n && !(entered && (u == uid || v == uid)))
  }

  lemma NewChannelFounded(cfg: Config, s: State, uid: UserId, sid: SessionId, name: string, password: Option<string>, now: real,
                          c: ChannelId, u: UserId, v: UserId)
    requires Owns(s, uid, sid) && s.sessions[sid].channelId != s.next.channel
    requires Invariant(cfg, Created(s, name, password, uid)) && ShareInvariant(Created(s, name, password, uid))
    ensures Founded(s, AfterCreation(cfg, s, name, password, uid, sid, now), MayTry(s.sessions[sid], password, now), uid,
                    s.next.channel, c, u, v)
  {
    var s1 := Created(s, name, password, uid);
    assert s1.sessions == s.sessions;
    CreatedLists(s, name, password, uid, c, u, v);
    FounderMayEnter(cfg, s, name, password, uid, sid, now);
    hide Invariant, ShareInvariant, HandleJoin, Created, Shares, Watches, MayTry, LetsIn, RoomsOf;
    JoinIsGone(cfg, s1, uid, sid, s.next.channel, password, now, c, u, v);
  }

  lemma FounderMayEnter(cfg: Config, s: State, name: string, password: Option<string>, uid: UserId, sid: SessionId, now: real)
    requires sid in s.sessions
    ensures var s1 := Created(s, name, password, uid);
            LetsIn(cfg, RoomsOf(s1), s1.sessions[sid], s.next.channel, password, now) <==> MayTry(s.sessions[sid], password, now)
  {
    hide MayTry;
    CreatedRooms(s, name, password, uid);
  }

  lemma PutBackFounded(cfg: Config, s: State, uid: UserId, sid: SessionId, name: string, password: Option<string>, now: real,
                       c: ChannelId, u: UserId, v: UserId)
    requires Invariant(cfg, s) && ShareInvariant(s) && Owns(s, uid, sid) && CreateRefusal(cfg, s, name).None?
    requires s.next.channel in s.channels && s.next.channel != GENERAL && s.channels[s.next.channel].members == {uid}
    requires PasswordAllowed(s, sid, password, now)
    ensures Founded(s, AfterCreation(cfg, s, name, password, uid, sid, now), true, uid, s.next.channel, c, u, v)
  {
    var n, s1 := s.next.channel, Created(s, name, password, uid);
    var s0 := ChargePassword(s1, sid, password, now);
    hide Invariant, ShareInvariant, AfterCreation, CreateRefusal, PasswordAllowed, Shares, Watches, PutIn, ChargePassword, Created;
    AloneMemberIsHere(cfg, s, n, uid, sid);
    if c != n {
      EverythingAtHome(cfg, s, uid, sid, c, u, v);
    }
    OwnerIsPutBack(cfg, s, name, password, uid, sid, now);
    CreatedLists(s, name, password, uid, c, u, v);
    ChargeSame(s1, sid, password, now, c, u, v);
    PutInSame(s0, uid, sid, n, c, u, v);
  }

  /** What a user shares and watches is in the channel it is in. */
  lemma EverythingAtHome(cfg: Config, s: State, uid: UserId, sid: SessionId, c: ChannelId, u: UserId, v: UserId)
    requires Invariant(cfg, s) && ShareInvariant(s) && Owns(s, uid, sid) && c != s.sessions[sid].channelId
    ensures Shares(s, c, u) ==> u != uid
    ensures Watches(s, c, u, v) ==> u != uid && v != uid
  {
    InvariantParts(cfg, s);
    hide Invariant, ShareInvariant;
    SharesAtHome(s, uid, sid);
    OnlyWatched(s, uid, sid);
  }

  lemma HandleCreateFounded(cfg: Config, s: State, uid: UserId, sid: SessionId, name: string, password: Option<string>, now: real,
                            c: ChannelId, u: UserId, v: UserId)
    requires Invariant(cfg, s) && ShareInvariant(s) && Owns(s, uid, sid) && ChannelCreated(cfg, s, name)
    requires s.next.channel in s.channels ==> Replaceable(s, uid, sid, s.next.channel, password, now)
    ensures Founded(s, HandleCreate(cfg, s, uid, sid, name, password, now), MayTry(s.sessions[sid], password, now), uid,
                    s.next.channel, c, u, v)
  {
    HomeIsHeld(cfg, s, uid, sid);
    hide Invariant, ShareInvariant, SameShares, HandleJoin, NameAccepted, CreateRefusal, Created, PasswordAllowed, MayTry, Founded;
    TriesAre(s, sid, password, now);
    if s.next.channel !in s.channels {
      CreateKeepsInvariant(cfg, s, name, password, uid);
      CreateKeepsShares(cfg, s, name, password, uid);
      CreateIsCreated(cfg, s, name, password, uid);
      NewChannelFounded(cfg, s, uid, sid, name, password, now, c, u, v);
    } else if s.channels[s.next.channel].members == {} {
      ReplacedEmpty(cfg, s, name, password, uid);
      NobodySharesThere(cfg, s, s.next.channel);
      CreatedSameShares(s, name, password, uid);
      SameSharesKeeps(s, Created(s, name, password, uid));
      NewChannelFounded(cfg, s, uid, sid, name, password, now, c, u, v);
    } else {
      PutBackFounded(cfg, s, uid, sid, name, password, now, c, u, v);
    }
    AfterCreationIs(cfg, s, name, password, uid, sid, now);
  }

  lemma CreateIsCreated(cfg: Config, s: State, name: string, password: Option<string>, uid: UserId)
    requires CreateRefusal(cfg, s, name).None?
    ensures Create(cfg, s, name, password, uid) == Created(s, name, password, uid)
  {
    hide CreateRefusal;
  }

  lemma AfterCreationIs(cfg: Config, s: State, name: string, password: Option<string>, uid: UserId, sid: SessionId, now: real)
    requires ChannelCreated(cfg, s, name)
    ensures HandleCreate(cfg, s, uid, sid, name, password, now) == AfterCreation(cfg, s, name, password, uid, sid, now)
  {
    hide CreateRefusal, NameAccepted, HandleJoin;
  }

  /** The channel a user is in exists, and has a member. */
  lemma HomeIsHeld(cfg: Config, s: State, uid: UserId, sid: SessionId)
    requires Invariant(cfg, s) && Owns(s, uid, sid)
    ensures s.sessions[sid].channelId in s.channels
    ensures s.sessions[sid].channelId != GENERAL ==> uid in s.channels[s.sessions[sid].channelId].members
  {
  }

  lemma CreateIsGone(cfg: Config, s: State, e: Event, c: ChannelId, u: UserId, v: UserId)
    requires Invariant(cfg, s) && ShareInvariant(s) && DrawsHarmless(cfg, s, e) && e.CreateEv? && e.sid in s.sessions
    ensures var s' := HandleMessage(cfg, s, s.sessions[e.sid].userId, e);
            && (Shares(s', c, u) <==> Shares(s, c, u) && !Founds(cfg, s, e, c) && !Departs(cfg, s, e, u))
            && (Watches(s', c, u, v) <==>
                Watches(s, c, u, v) && !Founds(cfg, s, e, c) && !Departs(cfg, s, e, u) && !Departs(cfg, s, e, v))
  {
    hide Invariant, ShareInvariant, SameShares, HandleCreate, ChannelCreated, CreateAllowed, Replaceable, ChargeCreate, HasToken, GoodName,
      MayTry, Shares, Watches, RoomsOf;
    var uid, sid, s0, name := s.sessions[e.sid].userId, e.sid, ChargeCreate(s, e.sid, e.now), Trim(e.name);
    ChargeCreateKeepsInvariant(cfg, s, uid, sid, e.now);
    ChargeCreateIs(cfg, s, uid, sid, name, e.attempt, e.now);
    ChargeCreateSameShares(s, sid, e.now);
    SameSharesKeeps(s, s0);
    SameSharesSame(s, s0, c, u, v);
    SameTries(s, sid, e.attempt, e.now);
    TriesAre(s, sid, e.attempt, e.now);
    CreationIs(cfg, s, name);
    if MayOpen(cfg, RoomsOf(s), s.sessions[sid], name, e.now) {
      HandleCreateFounded(cfg, s0, uid, sid, name, e.attempt, e.now, c, u, v);
    } else if CreateAllowed(s, sid, e.now) {
      RefusedCreation(cfg, s0, uid, sid, name, e.attempt, e.now);
    }
  }

  lemma SameTries(s: State, sid: SessionId, password: Option<string>, now: real)
    requires sid in s.sessions
    ensures sid in ChargeCreate(s, sid, now).sessions
    ensures MayTry(ChargeCreate(s, sid, now).sessions[sid], password, now) == MayTry(s.sessions[sid], password, now)
  {
    hide TryConsume, HasToken;
  }

  // ---------------------------------------------------------------- shares

  lemma StartIs(s: State, uid: UserId, sid: SessionId, resolution: int, c: ChannelId, u: UserId, v: UserId)
    requires Owns(s, uid, sid) && s.sessions[sid].channelId in s.channels
    requires !s.sessions[sid].sharing ==> !Shares(s, s.sessions[sid].channelId, uid)
    ensures var home := s.sessions[sid].channelId;
            var s' := StartShare(s, uid, sid, home, resolution);
            && (Shares(s', c, u) <==>
                Shares(s, c, u) || (c == home && u == uid && home != GENERAL && !s.sessions[sid].sharing))
            && Watches(s', c, u, v) == Watches(s, c, u, v)
  {
  }

  /** A share that starts is listed with the session and the resolution of the message, and nobody watches it yet. */
  lemma StartedShare(s: State, e: Event, cfg: Config, c: ChannelId, u: UserId)
    requires Starts(s, e, c, u) && c in s.channels
    ensures var s' := Step(cfg, s, e);
            && c in s'.channels && u in s'.channels[c].shares && s'.channels[c].shares[u] == Share(e.sid, {}, e.resolution)
            && e.sid in s'.sessions && s'.sessions[e.sid].sharing
  {
    StepIsMessage(cfg, s, e);
    hide Step;
  }

  lemma UnmarkedSharesNothing(cfg: Config, s: State, uid: UserId, sid: SessionId, c: ChannelId)
    requires Invariant(cfg, s) && ShareInvariant(s) && Owns(s, uid, sid) && !s.sessions[sid].sharing
    ensures !Shares(s, c, uid)
  {
    InvariantParts(cfg, s);
    hide Invariant, MarkedOk, ViewersOk;
    SessionOfOwner(s, uid, sid);
  }

  lemma EndIs(s: State, uid: UserId, home: ChannelId, c: ChannelId, u: UserId, v: UserId)
    ensures var s' := EndShare(s, uid, home);
            && (Shares(s', c, u) <==> Shares(s, c, u) && !(c == home && u == uid))
            && (Watches(s', c, u, v) <==> Watches(s, c, u, v) && !(c == home && u == uid))
  {
    hide ClearWatching;
    ClearingIsLocal();
  }

  lemma StopIs(cfg: Config, s: State, uid: UserId, sid: SessionId, c: ChannelId, u: UserId, v: UserId)
    requires Invariant(cfg, s) && ShareInvariant(s) && Owns(s, uid, sid)
    ensures var s' := StopShare(s, uid, sid, s.sessions[sid].channelId);
            && (Shares(s', c, u) <==> Shares(s, c, u) && u != uid)
            && (Watches(s', c, u, v) <==> Watches(s, c, u, v) && u != uid)
  {
    var home := s.sessions[sid].channelId;
    MarkingIsLocal(s, sid);
    hide Unmark, EndShare;
    EndIs(Unmark(s, sid), uid, home, c, u, v);
    if c != home {
      EverythingAtHome(cfg, s, uid, sid, c, u, v);
    }
  }

  // ---------------------------------------------------------------- watching

  lemma RemovedIs(s: State, viewer: UserId, sharer: UserId, home: ChannelId, c: ChannelId, u: UserId, v: UserId)
    ensures var s' := RemoveViewer(s, viewer, sharer, home);
            && Shares(s', c, u) == Shares(s, c, u)
            && (Watches(s', c, u, v) <==> Watches(s, c, u, v) && !(c == home && u == sharer && v == viewer))
  {
    RemovedViewer(s, viewer, sharer, home, c, u, v);
    RemoveViewerKeepsSharers(s, viewer, sharer, home);
    hide RemoveViewer;
  }

  lemma AddedIs(s: State, viewer: UserId, sharer: UserId, home: ChannelId, c: ChannelId, u: UserId, v: UserId)
    ensures var s' := AddViewer(s, viewer, sharer, home);
            && Shares(s', c, u) == Shares(s, c, u)
            && (Watches(s', c, u, v) <==>
                Watches(s, c, u, v) || (c == home && u == sharer && v == viewer && Shares(s, home, sharer)))
  {
  }

  lemma MarkedWatching(s: State, sid: SessionId, sharer: Option<UserId>)
    ensures SetWatching(s, sid, sharer).channels == s.channels
  {
  }

  lemma WatchIs(cfg: Config, s: State, uid: UserId, sid: SessionId, sharer: UserId, c: ChannelId, u: UserId, v: UserId)
    requires Invariant(cfg, s) && ShareInvariant(s) && Owns(s, uid, sid)
    ensures var home := s.sessions[sid].channelId;
            var s' := Watch(s, uid, sid, sharer, home);
            && Shares(s', c, u) == Shares(s, c, u)
            && (Watches(s', c, u, v) <==>
                || (v == uid && u == sharer && c == home && Shares(s, home, sharer))
                || (Watches(s, c, u, v) && v != uid))
  {
    var home := s.sessions[sid].channelId;
    var s1 := LeavePrevious(s, uid, sid, sharer, home);
    InvariantParts(cfg, s);
    hide Invariant, ShareInvariant, Views;
    OnlyWatched(s, uid, sid);
    if s.sessions[sid].watching.Some? {
      RemovedIs(s, uid, s.sessions[sid].watching.value, home, c, u, v);
      RemovedIs(s, uid, s.sessions[sid].watching.value, home, home, sharer, uid);
    }
    hide LeavePrevious, RemoveViewer, AddViewer, SetWatching, Shares;
    MarkedWatching(s1, sid, Some(sharer));
    SameListsSame(s1, SetWatching(s1, sid, Some(sharer)), c, u, v);
    SameListsSame(s1, SetWatching(s1, sid, Some(sharer)), home, sharer, uid);
    AddedIs(SetWatching(s1, sid, Some(sharer)), uid, sharer, home, c, u, v);
  }

  lemma StopWatchingIs(cfg: Config, s: State, uid: UserId, sid: SessionId, c: ChannelId, u: UserId, v: UserId)
    requires Invariant(cfg, s) && ShareInvariant(s) && Owns(s, uid, sid)
    ensures var s' := StopWatching(s, uid, sid, s.sessions[sid].channelId);
            && Shares(s', c, u) == Shares(s, c, u)
            && (Watches(s', c, u, v) <==> Watches(s, c, u, v) && v != uid)
  {
    var home := s.sessions[sid].channelId;
    InvariantParts(cfg, s);
    hide Invariant, ShareInvariant, Views;
    OnlyWatched(s, uid, sid);
    if s.sessions[sid].watching.Some? {
      MarkedWatching(s, sid, None);
      hide RemoveViewer, SetWatching;
      SameListsSame(s, SetWatching(s, sid, None), c, u, v);
      RemovedIs(SetWatching(s, sid, None), uid, s.sessions[sid].watching.value, home, c, u, v);
    }
  }

  // ---------------------------------------------------------------- every event

  lemma MessageLists(cfg: Config, s: State, e: Event, c: ChannelId, u: UserId, v: UserId)
    requires Invariant(cfg, s) && ShareInvariant(s) && DrawsHarmless(cfg, s, e)
    requires !e.LoginEv? && !e.TimerEv? && !e.DatagramEv? && e.sid in s.sessions
    ensures var s' := HandleMessage(cfg, s, s.sessions[e.sid].userId, e);
            && (Shares(s', c, u) <==> Starts(s, e, c, u) || (Shares(s, c, u) && !Ends(cfg, s, e, c, u)))
            && (Watches(s', c, u, v) <==>
                Tunes(s, e, c, u, v) || (Watches(s, c, u, v) && !Ends(cfg, s, e, c, u) && !TurnsOff(cfg, s, e, v)))
  {
    hide Invariant, ShareInvariant, DrawsHarmless, HandleJoin, CreateMessage, HandleKick, Disconnect, StartShare, StopShare, Watch,
      StopWatching, Shares, Watches, LetsIn, MayTry, MayOpen, RoomsOf;
    var uid, sid := s.sessions[e.sid].userId, e.sid;
    if e.JoinEv? {
      JoinIsGone(cfg, s, uid, sid, e.c, e.attempt, e.now, c, u, v);
    } else if e.CreateEv? {
      CreateIsGone(cfg, s, e, c, u, v);
    } else if e.DisconnectEv? {
      DisconnectIsGone(cfg, s, uid, sid, c, u, v);
    } else if e.KickEv? {
      KickChangesNoList(cfg, s, uid, e.c, e.target, c, u, v);
    } else if e.StartShareEv? {
      HomeIsHeld(cfg, s, uid, sid);
      if !s.sessions[sid].sharing {
        UnmarkedSharesNothing(cfg, s, uid, sid, s.sessions[sid].channelId);
      }
      StartIs(s, uid, sid, e.resolution, c, u, v);
    } else if e.StopShareEv? {
      StopIs(cfg, s, uid, sid, c, u, v);
    } else if e.WatchEv? {
      WatchIs(cfg, s, uid, sid, e.sharer, c, u, v);
    } else if e.StopWatchingEv? {
      StopWatchingIs(cfg, s, uid, sid, c, u, v);
    } else {
      EditChangesNoList(cfg, s, uid, e, c, u, v);
    }
    WatchedIsShared(s, c, u, v);
  }

  lemma WatchedIsShared(s: State, c: ChannelId, u: UserId, v: UserId)
    ensures Watches(s, c, u, v) ==> Shares(s, c, u)
  {
  }

  lemma KickChangesNoList(cfg: Config, s: State, requester: UserId, from: ChannelId, target: UserId, c: ChannelId, u: UserId, v: UserId)
    requires Invariant(cfg, s)
    ensures var s' := HandleKick(cfg, s, requester, from, target);
            Shares(s', c, u) == Shares(s, c, u) && Watches(s', c, u, v) == Watches(s, c, u, v)
  {
    hide Invariant, HandleKick, KickRefusal, Shares, Watches;
    KickNeverHalfDone(cfg, s, from, requester, target);
    if KickRefusal(s, from, requester, target).None? {
      KickMoves(cfg, s, requester, from, target);
      SameListsSame(s, HandleKick(cfg, s, requester, from, target), c, u, v);
    } else {
      RefusedKick(cfg, s, requester, from, target);
    }
  }

  lemma EditChangesNoList(cfg: Config, s: State, uid: UserId, e: Event, c: ChannelId, u: UserId, v: UserId)
    requires e.PasswordEv? || e.InviteEv? || e.DeclineEv?
    ensures var s' := HandleMessage(cfg, s, uid, e);
            Shares(s', c, u) == Shares(s, c, u) && Watches(s', c, u, v) == Watches(s, c, u, v)
  {
    hide Shares, Watches;
    match e {
      case PasswordEv(_, to, attempt) =>
        if SetPasswordRefusal(s, to, uid).None? {
          EditSame(s, to, s.channels[to].(hasPassword := attempt.Some?, password := attempt), c, u, v);
        }
      case InviteEv(_, to, guest) =>
        if InviteRefusal(s, to, uid, guest).None? {
          EditSame(s, to, s.channels[to].(invited := s.channels[to].invited + {guest}), c, u, v);
        }
      case DeclineEv(_, to) =>
        if to in s.channels {
          EditSame(s, to, s.channels[to].(invited := s.channels[to].invited - {uid}), c, u, v);
        }
    }
  }

  lemma EditSame(s: State, to: ChannelId, ch: Channel, c: ChannelId, u: UserId, v: UserId)
    requires to in s.channels && ch.shares == s.channels[to].shares
    ensures var s' := WithChannel(s, to, ch);
            Shares(s', c, u) == Shares(s, c, u) && Watches(s', c, u, v) == Watches(s, c, u, v)
  {
  }

  lemma TimerLists(cfg: Config, s: State, t: TimerId, c: ChannelId, u: UserId, v: UserId)
    requires Invariant(cfg, s) && ShareInvariant(s)
    ensures var s' := FireTimer(s, t);
            Shares(s', c, u) == Shares(s, c, u) && Watches(s', c, u, v) == Watches(s, c, u, v)
  {
    hide Invariant, ShareInvariant, Delete;
    if t in s.timers {
      TimerFindsEmptyChannel(cfg, s, t);
      TimedIsEmpty(cfg, s, t);
      NobodySharesThere(cfg, s, s.timers[t]);
      FiredChannels(s, t);
      hide FireTimer;
    }
  }

  lemma FiredChannels(s: State, t: TimerId)
    requires t in s.timers && DeleteRefusal(s.(timers := s.timers - {t}), s.timers[t]).None?
    ensures FireTimer(s, t).channels == s.channels - {s.timers[t]}
  {
    hide DeleteRefusal;
  }

  lemma TimedIsEmpty(cfg: Config, s: State, t: TimerId)
    requires Invariant(cfg, s) && t in s.timers
    ensures s.timers[t] in s.channels && s.timers[t] != GENERAL && s.channels[s.timers[t]].members == {}
  {
    assert ChannelOk(s.timers[t], s.channels[s.timers[t]]);
  }

  /**
   Who shares and who watches after an event, for every event there is: a viewer is on the list it
   asked for and on no other, a share ends when its sharer ends it or goes, and nobody else's changes.
   */
  lemma ViewingStepIff(cfg: Config, s: State, e: Event, c: ChannelId, u: UserId, v: UserId)
    requires Invariant(cfg, s) && ShareInvariant(s) && DrawsHarmless(cfg, s, e)
    ensures var s' := Step(cfg, s, e);
            && (Shares(s', c, u) <==> Starts(s, e, c, u) || (Shares(s, c, u) && !Ends(cfg, s, e, c, u)))
            && (Watches(s', c, u, v) <==>
                Tunes(s, e, c, u, v) || (Watches(s, c, u, v) && !Ends(cfg, s, e, c, u) && !TurnsOff(cfg, s, e, v)))
  {
    hide Invariant, ShareInvariant, DrawsHarmless, HandleMessage, FireTimer, Login, Resolve, Shares, Watches, LetsIn, MayTry, MayOpen, RoomsOf;
    if e.TimerEv? {
      TimerLists(cfg, s, e.timer, c, u, v);
    } else if e.LoginEv? {
      LoginSameChannels(cfg, s, e.name, e.token, e.ip, e.now);
      SameListsSame(s, Step(cfg, s, e), c, u, v);
    } else if e.DatagramEv? {
      ResolveSameChannels(cfg, s, e.src, e.sid, e.token);
      SameListsSame(s, Step(cfg, s, e), c, u, v);
    } else if e.sid in s.sessions {
      StepIsMessage(cfg, s, e);
      MessageLists(cfg, s, e, c, u, v);
    }
  }

  // ---------------------------------------------------------------- every run

  /** None of the events takes v off u's list in channel c. */
  ghost predicate KeepsWatching(cfg: Config, s: State, es: seq<Event>, c: ChannelId, u: UserId, v: UserId)
    decreases |es|
  {
    es == [] ||
    (!Ends(cfg, s, es[0], c, u) && !TurnsOff(cfg, s, es[0], v) && KeepsWatching(cfg, Step(cfg, s, es[0]), es[1..], c, u, v))
  }

  /** One of the events is v's asking to watch u's share in channel c, and none of those after it undoes it. */
  ghost predicate TunedIn(cfg: Config, s: State, es: seq<Event>, c: ChannelId, u: UserId, v: UserId)
    decreases |es|
  {
    es != [] &&
    var s1 := Step(cfg, s, es[0]);
    || (Tunes(s, es[0], c, u, v) && KeepsWatching(cfg, s1, es[1..], c, u, v))
    || TunedIn(cfg, s1, es[1..], c, u, v)
  }

  /** Whoever is on a viewer list after a run asked for it and did nothing since that takes it off; and conversely. */
  lemma {:induction false} WatchingInRunIff(cfg: Config, s: State, es: seq<Event>, c: ChannelId, u: UserId, v: UserId)
    requires SharesThroughout(cfg, s, es)
    ensures Watches(Run(cfg, s, es), c, u, v) <==>
            TunedIn(cfg, s, es, c, u, v) || (Watches(s, c, u, v) && KeepsWatching(cfg, s, es, c, u, v))
    decreases |es|
  {
    hide Invariant, ShareInvariant, DrawsHarmless, BreaksShares, Step, Watches, Tunes, TurnsOff, Ends, Shares, Starts;
    if es != [] {
      SharesThroughoutIff(cfg, s, es);
      ViewingStepIff(cfg, s, es[0], c, u, v);
      WatchingInRunIff(cfg, Step(cfg, s, es[0]), es[1..], c, u, v);
    }
  }

  // ---------------------------------------------------------------- the video that follows

  /** Where the video of a session goes: to the bound addresses of whoever is on its user's list. */
  lemma WatcherIsSent(cfg: Config, s: State, from: SessionId, to: SessionId, a: Addr)
    requires Invariant(cfg, s) && from in s.sessions && to in s.sessions && s.sessions[to].udpAddr == Some(a)
    requires s.sessions[from].channelId != GENERAL
    requires Watches(s, s.sessions[from].channelId, s.sessions[from].userId, s.sessions[to].userId)
    ensures a in VideoTargets(s, from)
  {
    VideoReachesEveryViewer(cfg, s, from);
    hide Invariant, VideoTargets;
    var x := to;
    assert x in s.sessions && s.sessions[x].udpAddr.Some?
           && Views(s.channels, s.sessions[from].channelId, s.sessions[from].userId, s.sessions[x].userId);
  }

  /** Asking to watch a share that there is puts the viewer on that list, and on no other. */
  lemma WatchingIsListed(cfg: Config, s: State, to: SessionId, u: UserId)
    requires Invariant(cfg, s) && ShareInvariant(s) && to in s.sessions && Shares(s, s.sessions[to].channelId, u)
    ensures var c, v := s.sessions[to].channelId, s.sessions[to].userId;
            var s' := Step(cfg, s, WatchEv(to, u));
            Watches(s', c, u, v) && forall c', u' :: Watches(s', c', u', v) ==> c' == c && u' == u
  {
    var c, v, e := s.sessions[to].channelId, s.sessions[to].userId, WatchEv(to, u);
    var s' := Step(cfg, s, e);
    assert Tunes(s, e, c, u, v) && TurnsOff(cfg, s, e, v);
    hide Invariant, ShareInvariant, Step, Shares, Ends, Views, TurnsOff;
    ViewingStepIff(cfg, s, e, c, u, v);
    forall c', u' | Watches(s', c', u', v)
      ensures c' == c && u' == u
    {
      ViewingStepIff(cfg, s, e, c', u', v);
    }
  }

  /** And if the viewer's address is bound, the sharer's video goes there from then on. */
  lemma WatchingIsShown(cfg: Config, s: State, to: SessionId, from: SessionId, a: Addr)
    requires Invariant(cfg, s) && ShareInvariant(s) && to in s.sessions && from in s.sessions
    requires Shares(s, s.sessions[to].channelId, s.sessions[from].userId) && s.sessions[to].udpAddr == Some(a)
    ensures a in VideoTargets(Step(cfg, s, WatchEv(to, s.sessions[from].userId)), from)
  {
    var c, u := s.sessions[to].channelId, s.sessions[from].userId;
    StepKeepsInvariantIff(cfg, s, WatchEv(to, u));
    SharerIsHere(cfg, s, c, u, from);
    WatchKeepsPlaces(cfg, s, to, u);
    hide Invariant, ShareInvariant, Step, Shares, Watches, VideoTargets;
    WatchingIsListed(cfg, s, to, u);
    WatcherIsSent(cfg, Step(cfg, s, WatchEv(to, u)), from, to, a);
  }

  lemma SharerIsHere(cfg: Config, s: State, c: ChannelId, u: UserId, from: SessionId)
    requires Invariant(cfg, s) && ShareInvariant(s) && Shares(s, c, u) && Owns(s, u, from)
    ensures s.sessions[from].channelId == c && c != GENERAL
  {
    InvariantParts(cfg, s);
    hide Invariant;
    SessionOfOwner(s, u, from);
  }

  lemma WatchKeepsPlaces(cfg: Config, s: State, to: SessionId, u: UserId)
    requires to in s.sessions
    ensures var s' := Step(cfg, s, WatchEv(to, u));
            && s'.sessions.Keys == s.sessions.Keys
            && forall x :: x in s.sessions ==> Alike(s.sessions[x], s'.sessions[x])
  {
    hide Watch;
    WatchMovesNobody(s, s.sessions[to].userId, to, u, ChannelOf(s, to));
  }

  // ---------------------------------------------------------------- marks

  /** Session x no longer says that it watches anything. */
  ghost predicate Unmarked(s: State, x: SessionId) {
    x in s.sessions ==> s.sessions[x].watching == None
  }

  lemma EndUnmarks(s: State, uid: UserId, home: ChannelId, x: SessionId)
    requires UsersOk(s.sessions, s.userToSession) && x in s.sessions
    ensures Watches(s, home, uid, s.sessions[x].userId) || Unmarked(s, x) ==> Unmarked(EndShare(s, uid, home), x)
  {
    var v := s.sessions[x].userId;
    if Watches(s, home, uid, v) {
      var viewers := s.channels[home].shares[uid].viewers;
      assert v in viewers && s.userToSession[v] == x;
      assert x in SessionsOf(RemoveShare(s, uid, home), viewers);
    }
  }

  lemma UnmarkUnmarks(s: State, sid: SessionId, x: SessionId)
    ensures Unmarked(s, x) ==> Unmarked(Unmark(s, sid), x)
  {
  }

  /** Leaving off sharing leaves its viewers watching nothing. */
  lemma StopUnmarks(cfg: Config, s: State, uid: UserId, sid: SessionId, c: ChannelId, x: SessionId)
    requires Invariant(cfg, s) && ShareInvariant(s) && Owns(s, uid, sid) && x in s.sessions
    requires Watches(s, c, uid, s.sessions[x].userId)
    ensures Unmarked(StopShare(s, uid, sid, s.sessions[sid].channelId), x)
  {
    InvariantParts(cfg, s);
    WatchedIsShared(s, c, uid, s.sessions[x].userId);
    SharesAtHome(s, uid, sid);
    var s1 := Unmark(s, sid);
    UnmarkKeepsUsers(s, sid, x);
    hide Invariant, ShareInvariant, EndShare, Unmark, UsersOk;
    EndUnmarks(s1, uid, s.sessions[sid].channelId, x);
  }

  lemma UnmarkKeepsUsers(s: State, sid: SessionId, x: SessionId)
    requires UsersOk(s.sessions, s.userToSession) && x in s.sessions
    ensures var s1 := Unmark(s, sid);
            && UsersOk(s1.sessions, s1.userToSession) && x in s1.sessions && s1.sessions[x].userId == s.sessions[x].userId
            && s1.channels == s.channels
  {
  }

  /** So does a departure, and the user itself watches nothing any more either. */
  lemma CleanupUnmarks(cfg: Config, s: State, uid: UserId, sid: SessionId, c: ChannelId, x: SessionId)
    requires Invariant(cfg, s) && ShareInvariant(s) && Owns(s, uid, sid) && x in s.sessions
    requires s.sessions[sid].channelId in s.channels
    requires Watches(s, c, uid, s.sessions[x].userId) || x == sid
    ensures Unmarked(CleanupShares(s, uid, sid, s.sessions[sid].channelId), x)
  {
    InvariantParts(cfg, s);
    var home := s.sessions[sid].channelId;
    if Watches(s, c, uid, s.sessions[x].userId) {
      WatchedIsShared(s, c, uid, s.sessions[x].userId);
      SharesAtHome(s, uid, sid);
      EndUnmarks(s, uid, home, x);
    }
    hide Invariant, ShareInvariant, EndShare, UsersOk;
    var s1 := EndShare(s, uid, home);
    UnmarkUnmarks(s1, sid, x);
    StopAsViewerUnmarks(Unmark(s1, sid), uid, sid, home, x);
  }

  lemma StopAsViewerUnmarks(s: State, uid: UserId, sid: SessionId, c: ChannelId, x: SessionId)
    ensures Unmarked(s, x) || x == sid ==> Unmarked(StopAsViewer(s, uid, sid, c), x)
  {
  }

  lemma DepartUnmarks(cfg: Config, s: State, uid: UserId, sid: SessionId, target: ChannelId, c: ChannelId, x: SessionId)
    requires Invariant(cfg, s) && ShareInvariant(s) && Owns(s, uid, sid) && x in s.sessions
    requires s.sessions[sid].channelId != target && s.sessions[sid].channelId != GENERAL
    requires Watches(s, c, uid, s.sessions[x].userId) || x == sid
    ensures Unmarked(Depart(s, uid, sid, target), x)
  {
    InvariantParts(cfg, s);
    HomeIsHeld(cfg, s, uid, sid);
    hide Invariant, ShareInvariant, CleanupShares, LeaveAndTime;
    CleanupUnmarks(cfg, s, uid, sid, c, x);
    LeaveAndTimeIsLocal(CleanupShares(s, uid, sid, s.sessions[sid].channelId), uid, sid);
  }

  lemma PutInUnmarks(s: State, uid: UserId, sid: SessionId, c: ChannelId, x: SessionId)
    requires c in s.channels
    ensures Unmarked(s, x) ==> Unmarked(PutIn(s, uid, sid, c), x)
  {
  }

  /** What the message of a session leaves marked as watching when its user's share ends or it goes elsewhere. */
  lemma EndedShareIsLeft(cfg: Config, s: State, e: Event, c: ChannelId, u: UserId, x: SessionId)
    requires Invariant(cfg, s) && ShareInvariant(s) && x in s.sessions
    requires (e.StopShareEv? && IsFrom(s, e, u)) || ((e.JoinEv? || e.DisconnectEv?) && Departs(cfg, s, e, u))
    requires Watches(s, c, u, s.sessions[x].userId)
    ensures Unmarked(Step(cfg, s, e), x)
  {
    hide Invariant, ShareInvariant, Watches, Shares, HandleMessage, Step, Departs, Unmarked, Owns;
    WatchedIsShared(s, c, u, s.sessions[x].userId);
    if e.StopShareEv? {
      StopShareUnmarks(cfg, s, e, c, u, x);
    } else {
      DepartureIsFrom(cfg, s, e, u);
      if e.JoinEv? {
        JoinEvUnmarks(cfg, s, e, c, u, x);
      } else {
        DisconnectEvUnmarks(cfg, s, e, c, u, x);
      }
    }
  }

  lemma DepartureIsFrom(cfg: Config, s: State, e: Event, u: UserId)
    requires Departs(cfg, s, e, u)
    ensures IsFrom(s, e, u)
  {
  }

  lemma StopShareUnmarks(cfg: Config, s: State, e: Event, c: ChannelId, u: UserId, x: SessionId)
    requires Invariant(cfg, s) && ShareInvariant(s) && x in s.sessions
    requires e.StopShareEv? && IsFrom(s, e, u) && Watches(s, c, u, s.sessions[x].userId)
    ensures Unmarked(Step(cfg, s, e), x)
  {
    hide Invariant, ShareInvariant, Watches, StopShare, Unmarked;
    StopUnmarks(cfg, s, u, e.sid, c, x);
  }

  lemma JoinEvUnmarks(cfg: Config, s: State, e: Event, c: ChannelId, u: UserId, x: SessionId)
    requires Invariant(cfg, s) && ShareInvariant(s) && x in s.sessions && e.JoinEv? && Departs(cfg, s, e, u)
    requires Shares(s, c, u) && Watches(s, c, u, s.sessions[x].userId)
    ensures Unmarked(Step(cfg, s, e), x)
  {
    hide Invariant, ShareInvariant, Watches, Shares, HandleJoin, Unmarked, LetsIn, RoomsOf;
    SharerIsHere(cfg, s, c, u, e.sid);
    JoinUnmarks(cfg, s, u, e.sid, e.c, e.attempt, e.now, c, x);
  }

  lemma DisconnectEvUnmarks(cfg: Config, s: State, e: Event, c: ChannelId, u: UserId, x: SessionId)
    requires Invariant(cfg, s) && ShareInvariant(s) && x in s.sessions && e.DisconnectEv? && IsFrom(s, e, u)
    requires Shares(s, c, u) && Watches(s, c, u, s.sessions[x].userId)
    ensures Unmarked(Step(cfg, s, e), x)
  {
    hide Invariant, ShareInvariant, Watches, Shares, Disconnect, Unmarked;
    SharerIsHere(cfg, s, c, u, e.sid);
    DisconnectUnmarks(cfg, s, u, e.sid, c, x);
  }

  lemma JoinUnmarks(cfg: Config, s: State, uid: UserId, sid: SessionId, to: ChannelId, attempt: Option<string>, now: real,
                    c: ChannelId, x: SessionId)
    requires Invariant(cfg, s) && ShareInvariant(s) && Owns(s, uid, sid) && x in s.sessions
    requires LetsIn(cfg, RoomsOf(s), s.sessions[sid], to, attempt, now)
    requires s.sessions[sid].channelId != to && s.sessions[sid].channelId != GENERAL
    requires Watches(s, c, uid, s.sessions[x].userId) || x == sid
    ensures Unmarked(HandleJoin(cfg, s, uid, sid, to, attempt, now), x)
  {
    RoomKeys(s);
    hide Invariant, ShareInvariant, HandleJoin, PasswordAllowed, ValidateJoin, ChargePassword, Depart, PutIn, Watches, RoomsOf,
      MayTry, MayEnter, HasSpace, Unmarked;
    RoomsAt(s, to);
    TriesAre(s, sid, attempt, now);
    ValidationIs(cfg, s, to, attempt, uid);
    var s0 := ChargePassword(s, sid, attempt, now);
    CreatorJoins(cfg, s, uid, sid, to, attempt, now);
    ChargeKeepsInvariant(cfg, s, uid, sid, attempt, now);
    ChargeSameShares(s, sid, attempt, now);
    SameSharesKeeps(s, s0);
    SameSharesUser(s, s0, sid);
    SameSharesUser(s, s0, x);
    ChargeSame(s, sid, attempt, now, c, uid, s.sessions[x].userId);
    DepartUnmarks(cfg, s0, uid, sid, to, c, x);
    PutInUnmarks(Depart(s0, uid, sid, to), uid, sid, to, x);
  }

  lemma SameSharesUser(s: State, s': State, x: SessionId)
    requires SameShares(s, s') && x in s.sessions
    ensures x in s'.sessions && s'.sessions[x].userId == s.sessions[x].userId
    ensures s'.sessions[x].channelId == s.sessions[x].channelId
  {
  }

  lemma DisconnectUnmarks(cfg: Config, s: State, uid: UserId, sid: SessionId, c: ChannelId, x: SessionId)
    requires Invariant(cfg, s) && ShareInvariant(s) && Owns(s, uid, sid) && x in s.sessions && s.sessions[sid].channelId != GENERAL
    requires Watches(s, c, uid, s.sessions[x].userId) || x == sid
    ensures Unmarked(Disconnect(cfg, s, uid, sid), x)
  {
    HomeIsHeld(cfg, s, uid, sid);
    hide Invariant, ShareInvariant, CleanupShares, LeaveAndTime, RemoveSession, Watches;
    CleanupUnmarks(cfg, s, uid, sid, c, x);
    LeaveAndTimeIsLocal(CleanupShares(s, uid, sid, s.sessions[sid].channelId), uid, sid);
    DisconnectSteps(cfg, s, uid, sid);
  }

  // ---------------------------------------------------------------- what is reported

  /** The two numbers that a sharer is told are the sizes of its list before and after. */
  lemma CountsAreTrue(s: State, viewer: UserId, sharer: UserId, c: ChannelId)
    requires Shares(s, c, sharer)
    ensures var share := s.channels[c].shares[sharer];
            var added, removed := AddViewer(s, viewer, sharer, c), RemoveViewer(s, viewer, sharer, c);
            && Shares(added, c, sharer) && Shares(removed, c, sharer)
            && (AudienceWith(s, viewer, sharer, c)
                == Some(Audience(sharer, share.sharerSession, |share.viewers|, |added.channels[c].shares[sharer].viewers|)))
            && (AudienceWithout(s, viewer, sharer, c)
                == Some(Audience(sharer, share.sharerSession, |share.viewers|, |removed.channels[c].shares[sharer].viewers|)))
  {
  }

  /** A cleanup reports whether there was a share, exactly the sessions that watched it, and those left in the channel. */
  lemma CleanupIsReported(cfg: Config, s: State, uid: UserId, sid: SessionId)
    requires Invariant(cfg, s) && ShareInvariant(s) && Owns(s, uid, sid) && s.sessions[sid].channelId != GENERAL
    ensures var c := s.sessions[sid].channelId;
            var report := CleanupReport(s, uid, sid, c);
            && (report.stopped == if Shares(s, c, uid) then Some(uid) else None)
            && (forall x :: x in report.viewers <==> x in s.sessions && Watches(s, c, uid, s.sessions[x].userId))
            && (forall x :: x in report.members <==> x in s.sessions && x != sid && s.sessions[x].channelId == c)
  {
    var c := s.sessions[sid].channelId;
    HomeIsHeld(cfg, s, uid, sid);
    WatchersAre(cfg, s, c, uid);
    OthersAre(cfg, s, c, uid, sid);
    hide Invariant, ShareInvariant, SessionsOf, EndShare, AudienceWithout;
  }

  /** Whoever was watching somebody else's share when it cleans up, or asks for another, that sharer is told. */
  lemma LeftIsTold(cfg: Config, s: State, v: UserId, sid: SessionId, u: UserId, other: UserId)
    requires Invariant(cfg, s) && ShareInvariant(s) && Owns(s, v, sid) && u != v && u != other
    requires Watches(s, s.sessions[sid].channelId, u, v)
    ensures var c := s.sessions[sid].channelId;
            && AudienceWithout(s, v, u, c).Some?
            && CleanupReport(s, v, sid, c).left == AudienceWithout(s, v, u, c) == PreviousAudience(s, v, sid, other, c)
            && PreviousAudience(s, v, sid, u, c) == None
  {
    var c := s.sessions[sid].channelId;
    WatcherIsMarked(cfg, s, v, sid, u);
    WatchersAre(cfg, s, c, v);
    hide Invariant, ShareInvariant, SessionsOf;
    assert !Watches(s, c, v, v);
    EndKeepsOthers(s, v, sid, c, u);
    hide EndShare, Unmark;
  }

  lemma WatcherIsMarked(cfg: Config, s: State, v: UserId, sid: SessionId, u: UserId)
    requires Invariant(cfg, s) && ShareInvariant(s) && Owns(s, v, sid) && Watches(s, s.sessions[sid].channelId, u, v)
    ensures s.sessions[sid].watching == Some(u)
    ensures forall w :: Watches(s, s.sessions[sid].channelId, w, v) ==> w == u
  {
    InvariantParts(cfg, s);
    hide Invariant;
    assert s.userToSession[v] == sid;
  }

  lemma EndKeepsOthers(s: State, v: UserId, sid: SessionId, c: ChannelId, u: UserId)
    requires sid in s.sessions && s.sessions[sid].watching == Some(u) && u != v && Shares(s, c, u)
    requires Shares(s, c, v) ==> sid !in SessionsOf(s, s.channels[c].shares[v].viewers)
    ensures var s1 := Unmark(EndShare(s, v, c), sid);
            && Shares(s1, c, u) && s1.channels[c].shares[u] == s.channels[c].shares[u]
            && sid in s1.sessions && s1.sessions[sid].watching == Some(u)
  {
  }

  /** Which messages about shares are answered with success: those that do something. */
  lemma AnswersAreTrue(cfg: Config, s: State, sid: SessionId, u: UserId, resolution: int)
    requires Invariant(cfg, s) && ShareInvariant(s) && sid in s.sessions
    ensures var c, v := s.sessions[sid].channelId, s.sessions[sid].userId;
            && (StartShareRefusal(s, sid, c).None? <==> Starts(s, StartShareEv(sid, resolution), c, v))
            && (StopShareRefusal(s, v, c).None? <==> Shares(s, c, v))
            && (WatchRefusal(s, sid, u, c).None? <==> Tunes(s, WatchEv(sid, u), c, u, v))
            && (Watches(s, c, u, v) ==> StopWatchingRefusal(s, sid, c).None?)
  {
    var c, v := s.sessions[sid].channelId, s.sessions[sid].userId;
    HomeIsHeld(cfg, s, v, sid);
    hide Invariant, ShareInvariant, Views;
    if Watches(s, c, u, v) {
      MayStopWatching(cfg, s, sid, u);
    }
    hide StopWatchingRefusal;
  }

  lemma MayStopWatching(cfg: Config, s: State, sid: SessionId, u: UserId)
    requires Invariant(cfg, s) && ShareInvariant(s) && sid in s.sessions
    requires Watches(s, s.sessions[sid].channelId, u, s.sessions[sid].userId)
    ensures StopWatchingRefusal(s, sid, s.sessions[sid].channelId).None?
  {
    WatcherIsMarked(cfg, s, s.sessions[sid].userId, sid, u);
    hide Invariant, ShareInvariant;
  }

  lemma WatchersAre(cfg: Config, s: State, c: ChannelId, uid: UserId)
    requires Invariant(cfg, s) && ShareInvariant(s)
    ensures Shares(s, c, uid) ==>
              forall x :: x in SessionsOf(s, s.channels[c].shares[uid].viewers) <==>
                          x in s.sessions && Watches(s, c, uid, s.sessions[x].userId)
  {
    InvariantParts(cfg, s);
    hide Invariant;
    if Shares(s, c, uid) {
      forall x
        ensures x in SessionsOf(s, s.channels[c].shares[uid].viewers) <==>
                x in s.sessions && Watches(s, c, uid, s.sessions[x].userId)
      {
        if x in s.sessions {
          assert s.userToSession[s.sessions[x].userId] == x;
        }
      }
    }
  }

  lemma OthersAre(cfg: Config, s: State, c: ChannelId, uid: UserId, sid: SessionId)
    requires Invariant(cfg, s) && Owns(s, uid, sid) && c in s.channels && c != GENERAL
    ensures forall x :: x in SessionsOf(s, s.channels[c].members - {uid}) <==>
                        x in s.sessions && x != sid && s.sessions[x].channelId == c
  {
    hide NamesOk, Numbered, ChannelsOk, Housed, TimersOk, AddressesOk;
    forall x
      ensures x in SessionsOf(s, s.channels[c].members - {uid}) <==>
              x in s.sessions && x != sid && s.sessions[x].channelId == c
    {
      if x in s.sessions {
        assert s.userToSession[s.sessions[x].userId] == x;
      }
    }
  }
}
