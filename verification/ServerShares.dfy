/**
 Screen shares in every run: a user is listed as sharing exactly in the channel its session is in,
 viewers watch the share they are listed under, and General never has a share. A kick keeps this if
 and only if the kicked user neither shares nor watches in that channel.
 */
module ServerShares {
  import opened Wrappers
  import opened Bytes
  import opened RateLimiting
  import opened ServerModel
  import opened ServerInvariants
  import opened ServerNumbers
  import opened ServerRuns

  /** Whoever is listed as a sharer is marked so, is in that channel, and is listed with its session. */
  ghost predicate SharersOk(sessions: Sessions, users: Users, channels: Channels) {
    forall c, u :: c in channels && u in channels[c].shares ==>
      && u in users && users[u] in sessions
      && sessions[users[u]].sharing && sessions[users[u]].channelId == c
      && channels[c].shares[u].sharerSession == users[u]
  }

  /** Whoever is marked as sharing is listed in its channel. */
  ghost predicate MarkedOk(sessions: Sessions, channels: Channels) {
    forall sid :: sid in sessions && sessions[sid].sharing ==>
      sessions[sid].channelId in channels && sessions[sid].userId in channels[sessions[sid].channelId].shares
  }

  predicate Views(channels: Channels, c: ChannelId, u: UserId, v: UserId) {
    c in channels && u in channels[c].shares && v in channels[c].shares[u].viewers
  }

  /** Whoever is listed as a viewer watches that share, from the same channel. */
  ghost predicate ViewersOk(sessions: Sessions, users: Users, channels: Channels) {
    forall c: ChannelId, u: UserId, v: UserId :: Views(channels, c, u, v) ==>
      && v in users && users[v] in sessions
      && sessions[users[v]].watching == Some(u) && sessions[users[v]].channelId == c
  }

  ghost predicate SharesOk(sessions: Sessions, users: Users, channels: Channels) {
    && SharersOk(sessions, users, channels)
    && MarkedOk(sessions, channels)
    && ViewersOk(sessions, users, channels)
    && (GENERAL in channels ==> channels[GENERAL].shares == map[])
  }

  ghost predicate ShareInvariant(s: State) {
    SharesOk(s.sessions, s.userToSession, s.channels)
  }

  /** Nobody watches two shares at once, and everybody is listed as a sharer at most once. */
  lemma OneShareAtATime(s: State)
    requires ShareInvariant(s)
    ensures forall c: ChannelId, c': ChannelId, u: UserId, u': UserId, v: UserId :: Views(s.channels, c, u, v) && Views(s.channels, c', u', v) ==> c == c' && u == u'
    ensures forall c, c', u :: c in s.channels && c' in s.channels ==>
              (u in s.channels[c].shares && u in s.channels[c'].shares ==> c == c')
  {
    forall c: ChannelId, c': ChannelId, u: UserId, u': UserId, v: UserId | Views(s.channels, c, u, v) && Views(s.channels, c', u', v)
      ensures c == c' && u == u'
    {
      assert s.sessions[s.userToSession[v]].watching == Some(u);
    }
    forall c, c', u | c in s.channels && c' in s.channels && u in s.channels[c].shares && u in s.channels[c'].shares
      ensures c == c'
    {
      assert s.sessions[s.userToSession[u]].channelId == c;
    }
  }

  // ---------------------------------------------------------------- steps that leave shares alone

  ghost predicate SameSharing(x: Session, y: Session) {
    y.userId == x.userId && y.channelId == x.channelId && y.sharing == x.sharing && y.watching == x.watching
  }

  ghost predicate SameShares(s: State, s': State) {
    && s'.sessions.Keys == s.sessions.Keys && (forall sid :: sid in s.sessions ==> SameSharing(s.sessions[sid], s'.sessions[sid]))
    && s'.userToSession == s.userToSession
    && s'.channels.Keys == s.channels.Keys && (forall c :: c in s.channels ==> s'.channels[c].shares == s.channels[c].shares)
  }

  lemma SameSharesKeeps(s: State, s': State)
    requires ShareInvariant(s) && SameShares(s, s')
    ensures ShareInvariant(s')
  {
    forall c: ChannelId, u: UserId, v: UserId | Views(s'.channels, c, u, v)
      ensures v in s'.userToSession && s'.userToSession[v] in s'.sessions
      ensures s'.sessions[s'.userToSession[v]].watching == Some(u) && s'.sessions[s'.userToSession[v]].channelId == c
    {
      assert Views(s.channels, c, u, v);
    }
  }

  lemma LeaveAndTimeSameShares(s: State, uid: UserId, sid: SessionId)
    ensures SameShares(s, LeaveAndTime(s, uid, sid))
  {
    hide LeaveAndTime;
    LeaveAndTimeIsLocal(s, uid, sid);
  }

  // ---------------------------------------------------------------- starting and stopping a share

  lemma StartShareKeeps(s: State, uid: UserId, sid: SessionId, resolution: int)
    requires UsersOk(s.sessions, s.userToSession) && Housed(s.sessions, s.channels)
    requires ShareInvariant(s) && Owns(s, uid, sid)
    ensures ShareInvariant(StartShare(s, uid, sid, s.sessions[sid].channelId, resolution))
  {
    hide SharersOk, MarkedOk, ViewersOk;
    var c := s.sessions[sid].channelId;
    if StartShareRefusal(s, sid, c).None? {
      var x := s.sessions[sid].(sharing := true);
      var shares := s.channels[c].shares[uid := Share(sid, {}, resolution)];
      NewShareListed(s.sessions, s.userToSession, s.channels, uid, sid, x, shares, resolution);
      NewShareViewers(s.sessions, s.userToSession, s.channels, uid, sid, x, shares, resolution);
    }
  }

  lemma NewShareListed(sessions: Sessions, users: Users, channels: Channels, uid: UserId, sid: SessionId, x: Session, shares: map<UserId, Share>, resolution: int)
    requires UsersOk(sessions, users) && SharesOk(sessions, users, channels)
    requires sid in sessions && sessions[sid].userId == uid && sessions[sid].channelId in channels
    requires !sessions[sid].sharing && x == sessions[sid].(sharing := true) && x.channelId != GENERAL
    requires shares == channels[x.channelId].shares[uid := Share(sid, {}, resolution)]
    ensures var channels' := channels[x.channelId := channels[x.channelId].(shares := shares)];
            SharersOk(sessions[sid := x], users, channels') && MarkedOk(sessions[sid := x], channels')
  {
  }

  lemma NewShareViewers(sessions: Sessions, users: Users, channels: Channels, uid: UserId, sid: SessionId, x: Session, shares: map<UserId, Share>, resolution: int)
    requires UsersOk(sessions, users) && SharesOk(sessions, users, channels)
    requires sid in sessions && sessions[sid].userId == uid && sessions[sid].channelId in channels
    requires x == sessions[sid].(sharing := true) && x.channelId != GENERAL
    requires shares == channels[x.channelId].shares[uid := Share(sid, {}, resolution)]
    ensures var channels' := channels[x.channelId := channels[x.channelId].(shares := shares)];
            && ViewersOk(sessions[sid := x], users, channels')
            && (GENERAL in channels' ==> channels'[GENERAL].shares == map[])
  {
    var channels' := channels[x.channelId := channels[x.channelId].(shares := shares)];
    forall c: ChannelId, u: UserId, v: UserId | Views(channels', c, u, v)
      ensures Views(channels, c, u, v)
    {
    }
  }

  /** After taking off a share and its mark. */
  function Stopped(s: State, uid: UserId, sid: SessionId, c: ChannelId): State {
    EndShare(Unmark(s, sid), uid, c)
  }

  lemma StopShareKeeps(s: State, uid: UserId, sid: SessionId)
    requires UsersOk(s.sessions, s.userToSession) && ShareInvariant(s) && Owns(s, uid, sid)
    ensures var c := s.sessions[sid].channelId; ShareInvariant(Stopped(s, uid, sid, c))
    ensures var c := s.sessions[sid].channelId; c in s.channels ==> uid !in Stopped(s, uid, sid, c).channels[c].shares
  {
    var c := s.sessions[sid].channelId;
    var s' := Stopped(s, uid, sid, c);
    if c in s.channels && uid in s.channels[c].shares {
      StoppedSharers(s, uid, sid);
      StoppedMarked(s, uid, sid);
      StoppedViewers(s, uid, sid);
    } else {
      assert !s.sessions[sid].sharing;
      assert SameShares(s, s');
      SameSharesKeeps(s, s');
    }
  }

  lemma StoppedSharers(s: State, uid: UserId, sid: SessionId)
    requires UsersOk(s.sessions, s.userToSession) && ShareInvariant(s) && Owns(s, uid, sid)
    requires var c := s.sessions[sid].channelId; c in s.channels && uid in s.channels[c].shares
    ensures var s' := Stopped(s, uid, sid, s.sessions[sid].channelId);
            SharersOk(s'.sessions, s'.userToSession, s'.channels)
  {
    hide MarkedOk, ViewersOk;
    var s' := Stopped(s, uid, sid, s.sessions[sid].channelId);
    forall c, u | c in s'.channels && u in s'.channels[c].shares
      ensures u != uid && u in s.channels[c].shares
    {
    }
  }

  lemma StoppedMarked(s: State, uid: UserId, sid: SessionId)
    requires UsersOk(s.sessions, s.userToSession) && ShareInvariant(s) && Owns(s, uid, sid)
    requires var c := s.sessions[sid].channelId; c in s.channels && uid in s.channels[c].shares
    ensures var s' := Stopped(s, uid, sid, s.sessions[sid].channelId); MarkedOk(s'.sessions, s'.channels)
  {
    var s' := Stopped(s, uid, sid, s.sessions[sid].channelId);
    forall x | x in s'.sessions && s'.sessions[x].sharing
      ensures s'.sessions[x].channelId in s'.channels && s'.sessions[x].userId in s'.channels[s'.sessions[x].channelId].shares
    {
      assert x != sid && s.sessions[x].sharing;
      assert s.userToSession[s.sessions[x].userId] == x;
    }
  }

  lemma StoppedViewers(s: State, uid: UserId, sid: SessionId)
    requires UsersOk(s.sessions, s.userToSession) && ShareInvariant(s) && Owns(s, uid, sid)
    requires var c := s.sessions[sid].channelId; c in s.channels && uid in s.channels[c].shares
    ensures var s' := Stopped(s, uid, sid, s.sessions[sid].channelId); ViewersOk(s'.sessions, s'.userToSession, s'.channels)
  {
    var home := s.sessions[sid].channelId;
    var s' := Stopped(s, uid, sid, home);
    var gone := s.channels[home].shares[uid].viewers;
    forall c: ChannelId, u: UserId, v: UserId | Views(s'.channels, c, u, v)
      ensures v in s'.userToSession && s'.userToSession[v] in s'.sessions
      ensures s'.sessions[s'.userToSession[v]].watching == Some(u) && s'.sessions[s'.userToSession[v]].channelId == c
    {
      assert Views(s.channels, c, u, v);
      var x := s.userToSession[v];
      forall w | w in gone && w in s.userToSession && s.userToSession[w] == x
        ensures Views(s.channels, home, uid, v)
      {
        assert w == v;
      }
    }
  }

  // ---------------------------------------------------------------- watching

  /** v is on no share's viewer list, `except` aside. */
  ghost predicate Unlisted(channels: Channels, v: UserId, except: set<UserId>) {
    forall c: ChannelId, u: UserId :: Views(channels, c, u, v) ==> u in except
  }

  lemma SetWatchingKeeps(s: State, uid: UserId, sid: SessionId, sharer: Option<UserId>)
    requires UsersOk(s.sessions, s.userToSession) && ShareInvariant(s) && Owns(s, uid, sid)
    requires Unlisted(s.channels, uid, if sharer.Some? then {sharer.value} else {})
    ensures ShareInvariant(SetWatching(s, sid, sharer))
  {
    hide Views;
    var s' := SetWatching(s, sid, sharer);
    forall c: ChannelId, u: UserId, v: UserId | Views(s'.channels, c, u, v)
      ensures v in s'.userToSession && s'.userToSession[v] in s'.sessions
      ensures s'.sessions[s'.userToSession[v]].watching == Some(u) && s'.sessions[s'.userToSession[v]].channelId == c
    {
      assert Views(s.channels, c, u, v);
      if s.userToSession[v] == sid {
        assert v == uid;
      }
    }
  }

  lemma RemoveViewerKeeps(s: State, viewer: UserId, sharer: UserId, c: ChannelId)
    requires ShareInvariant(s)
    ensures ShareInvariant(RemoveViewer(s, viewer, sharer, c))
    ensures forall x: ChannelId, u: UserId, v: UserId :: Views(RemoveViewer(s, viewer, sharer, c).channels, x, u, v) ==>
              Views(s.channels, x, u, v) && !(x == c && u == sharer && v == viewer)
  {
    hide RemoveViewer, ShareInvariant, Views;
    RemoveViewerKeepsSharers(s, viewer, sharer, c);
    forall x: ChannelId, u: UserId, v: UserId
      ensures Views(RemoveViewer(s, viewer, sharer, c).channels, x, u, v) <==>
              Views(s.channels, x, u, v) && !(x == c && u == sharer && v == viewer)
    {
      RemovedViewer(s, viewer, sharer, c, x, u, v);
    }
    FewerViewersKeep(s, RemoveViewer(s, viewer, sharer, c));
  }

  /** Exactly one viewer is taken off one share. */
  lemma RemovedViewer(s: State, viewer: UserId, sharer: UserId, c: ChannelId, x: ChannelId, u: UserId, v: UserId)
    ensures Views(RemoveViewer(s, viewer, sharer, c).channels, x, u, v) <==>
            Views(s.channels, x, u, v) && !(x == c && u == sharer && v == viewer)
  {
  }

  lemma RemoveViewerKeepsSharers(s: State, viewer: UserId, sharer: UserId, c: ChannelId)
    ensures SameSharers(s, RemoveViewer(s, viewer, sharer, c))
  {
    var s' := RemoveViewer(s, viewer, sharer, c);
    assert s'.sessions == s.sessions && s'.userToSession == s.userToSession && s'.channels.Keys == s.channels.Keys;
    hide RemoveViewer;
    forall x | x in s.channels
      ensures s'.channels[x].shares.Keys == s.channels[x].shares.Keys
      ensures forall u :: u in s.channels[x].shares ==>
                s'.channels[x].shares[u].sharerSession == s.channels[x].shares[u].sharerSession
    {
      RemovalKeepsSharersOf(s, viewer, sharer, c, x);
    }
  }

  lemma RemovalKeepsSharersOf(s: State, viewer: UserId, sharer: UserId, c: ChannelId, x: ChannelId)
    requires x in s.channels
    ensures var s' := RemoveViewer(s, viewer, sharer, c);
            && x in s'.channels && s'.channels[x].shares.Keys == s.channels[x].shares.Keys
            && forall u :: u in s.channels[x].shares ==>
                 s'.channels[x].shares[u].sharerSession == s.channels[x].shares[u].sharerSession
  {
  }

  /** The same sessions, and the same users sharing by them, whoever watches. */
  ghost predicate SameSharers(s: State, s': State) {
    && s'.sessions == s.sessions && s'.userToSession == s.userToSession && s'.channels.Keys == s.channels.Keys
    && (forall c :: c in s.channels ==> s'.channels[c].shares.Keys == s.channels[c].shares.Keys)
    && (forall c, u :: c in s.channels && u in s.channels[c].shares ==>
          s'.channels[c].shares[u].sharerSession == s.channels[c].shares[u].sharerSession)
  }

  lemma FewerViewersKeep(s: State, s': State)
    requires ShareInvariant(s) && SameSharers(s, s')
    requires forall c: ChannelId, u: UserId, v: UserId :: Views(s'.channels, c, u, v) ==> Views(s.channels, c, u, v)
    ensures ShareInvariant(s')
  {
    hide Views;
  }

  lemma AddViewerKeeps(s: State, viewer: UserId, sid: SessionId, sharer: UserId, c: ChannelId)
    requires UsersOk(s.sessions, s.userToSession) && ShareInvariant(s) && Owns(s, viewer, sid)
    requires s.sessions[sid].watching == Some(sharer) && s.sessions[sid].channelId == c
    ensures ShareInvariant(AddViewer(s, viewer, sharer, c))
  {
    hide Views;
    var s' := AddViewer(s, viewer, sharer, c);
    forall x: ChannelId, u: UserId, v: UserId | Views(s'.channels, x, u, v)
      ensures Views(s.channels, x, u, v) || (x == c && u == sharer && v == viewer)
    {
      AddedViewer(s, viewer, sharer, c, x, u, v);
    }
    SessionOfOwner(s, viewer, sid);
  }

  lemma AddedViewer(s: State, viewer: UserId, sharer: UserId, c: ChannelId, x: ChannelId, u: UserId, v: UserId)
    ensures Views(AddViewer(s, viewer, sharer, c).channels, x, u, v) ==>
            Views(s.channels, x, u, v) || (x == c && u == sharer && v == viewer)
  {
  }

  lemma WatchKeeps(s: State, viewer: UserId, sid: SessionId, sharer: UserId)
    requires UsersOk(s.sessions, s.userToSession) && ShareInvariant(s) && Owns(s, viewer, sid)
    ensures ShareInvariant(Watch(s, viewer, sid, sharer, s.sessions[sid].channelId))
  {
    hide SharesOk, AddViewer;
    var c := s.sessions[sid].channelId;
    var s1 := LeavePrevious(s, viewer, sid, sharer, c);
    OnlyWatched(s, viewer, sid);
    if s.sessions[sid].watching.Some? {
      RemoveViewerKeeps(s, viewer, s.sessions[sid].watching.value, c);
    }
    assert s1.sessions == s.sessions && s1.userToSession == s.userToSession;
    SetWatchingKeeps(s1, viewer, sid, Some(sharer));
    var s2 := SetWatching(s1, sid, Some(sharer));
    SetWatchingUsers(s1, sid, Some(sharer));
    AddViewerKeeps(s2, viewer, sid, sharer, c);
  }

  lemma SetWatchingUsers(s: State, sid: SessionId, sharer: Option<UserId>)
    requires UsersOk(s.sessions, s.userToSession)
    ensures UsersOk(SetWatching(s, sid, sharer).sessions, SetWatching(s, sid, sharer).userToSession)
  {
  }

  /** A user is listed at most where its session says it watches, in its own channel. */
  lemma OnlyWatched(s: State, viewer: UserId, sid: SessionId)
    requires UsersOk(s.sessions, s.userToSession) && ShareInvariant(s) && Owns(s, viewer, sid)
    ensures forall c: ChannelId, u: UserId :: Views(s.channels, c, u, viewer) ==>
              s.sessions[sid].watching == Some(u) && s.sessions[sid].channelId == c
  {
    forall c: ChannelId, u: UserId | Views(s.channels, c, u, viewer)
      ensures s.sessions[sid].watching == Some(u) && s.sessions[sid].channelId == c
    {
      assert s.userToSession[viewer] == sid;
    }
  }

  lemma StopAsViewerKeeps(s: State, viewer: UserId, sid: SessionId)
    requires UsersOk(s.sessions, s.userToSession) && ShareInvariant(s) && Owns(s, viewer, sid)
    ensures var s' := StopAsViewer(s, viewer, sid, s.sessions[sid].channelId);
            ShareInvariant(s') && Unlisted(s'.channels, viewer, {})
  {
    hide SharesOk;
    var c := s.sessions[sid].channelId;
    OnlyWatched(s, viewer, sid);
    if s.sessions[sid].watching.Some? {
      var s1 := RemoveViewer(s, viewer, s.sessions[sid].watching.value, c);
      RemoveViewerKeeps(s, viewer, s.sessions[sid].watching.value, c);
      assert s1.sessions == s.sessions && s1.userToSession == s.userToSession;
      SetWatchingKeeps(s1, viewer, sid, None);
    }
  }

  /** Stopping to watch does the same two things in the other order. */
  lemma StopWatchingKeeps(s: State, viewer: UserId, sid: SessionId)
    requires UsersOk(s.sessions, s.userToSession) && ShareInvariant(s) && Owns(s, viewer, sid)
    ensures ShareInvariant(StopWatching(s, viewer, sid, s.sessions[sid].channelId))
  {
    var c := s.sessions[sid].channelId;
    StopAsViewerKeeps(s, viewer, sid);
    assert StopWatching(s, viewer, sid, c) == StopAsViewer(s, viewer, sid, c);
  }

  // ---------------------------------------------------------------- leaving the old channel behind

  /** uid neither shares nor watches anywhere. */
  ghost predicate Detached(s: State, uid: UserId, sid: SessionId) {
    && sid in s.sessions && !s.sessions[sid].sharing
    && (forall c :: c in s.channels ==> uid !in s.channels[c].shares)
    && Unlisted(s.channels, uid, {})
  }

  lemma SameUsersSameSessions(s: State, s': State, users: set<UserId>)
    requires s.userToSession == s'.userToSession
    ensures SessionsOf(s, users) == SessionsOf(s', users)
  {
  }

  lemma MarkingCommutes(s: State, uid: UserId, sid: SessionId, c: ChannelId)
    ensures Unmark(EndShare(s, uid, c), sid) == EndShare(Unmark(s, sid), uid, c)
  {
    if c in s.channels && uid in s.channels[c].shares {
      hide ClearWatching, Unmark;
      MarkingIsLocal(s, sid);
      assert RemoveShare(Unmark(s, sid), uid, c) == Unmark(RemoveShare(s, uid, c), sid) by { MarkingCommutesWithRemoval(s, uid, sid, c); }
      MarkingCommutesWithClearing(RemoveShare(s, uid, c), sid, s.channels[c].shares[uid].viewers);
    }
  }

  lemma MarkingIsLocal(s: State, sid: SessionId)
    ensures Unmark(s, sid).channels == s.channels
  {
  }

  lemma MarkingCommutesWithRemoval(s: State, uid: UserId, sid: SessionId, c: ChannelId)
    requires c in s.channels
    ensures RemoveShare(Unmark(s, sid), uid, c) == Unmark(RemoveShare(s, uid, c), sid)
  {
  }

  lemma MarkingCommutesWithClearing(s: State, sid: SessionId, users: set<UserId>)
    ensures Unmark(ClearWatching(s, users), sid) == ClearWatching(Unmark(s, sid), users)
  {
    SameUsersSameSessions(s, Unmark(s, sid), users);
    hide SessionsOf, Unwatched;
    if sid in s.sessions {
      UnmarkUnwatched(s.sessions, SessionsOf(s, users), sid);
    }
  }

  lemma UnmarkUnwatched(sessions: Sessions, gone: set<SessionId>, sid: SessionId)
    requires sid in sessions
    ensures var cleared := Unwatched(sessions, gone);
            sid in cleared && cleared[sid := cleared[sid].(sharing := false)] == Unwatched(sessions[sid := sessions[sid].(sharing := false)], gone)
  {
  }

  lemma StoppedIsUnshared(s: State, uid: UserId, sid: SessionId)
    requires UsersOk(s.sessions, s.userToSession) && ShareInvariant(s) && Owns(s, uid, sid)
    ensures var s' := Stopped(s, uid, sid, s.sessions[sid].channelId);
            && UsersOk(s'.sessions, s'.userToSession) && Owns(s', uid, sid)
            && s'.sessions[sid].channelId == s.sessions[sid].channelId && !s'.sessions[sid].sharing
            && (forall c :: c in s'.channels ==> uid !in s'.channels[c].shares)
  {
    var home := s.sessions[sid].channelId;
    var s' := Stopped(s, uid, sid, home);
    assert (forall c :: c in s'.channels ==> uid !in s'.channels[c].shares) && !s'.sessions[sid].sharing by {
      hide UsersOk;
      forall c | c in s.channels && uid in s.channels[c].shares
        ensures c == home
      {
        assert s.userToSession[uid] == sid by { SessionOfOwner(s, uid, sid); }
      }
    }
    hide ShareInvariant;
    UnmarkMovesNobody(s, sid);
    EndShareMovesNobody(Unmark(s, sid), uid, home);
    SameSeatsCompose(s, Unmark(s, sid), s');
    AlikeUsers(s.sessions, s'.sessions, s.userToSession);
  }

  lemma SessionOfOwner(s: State, uid: UserId, sid: SessionId)
    requires UsersOk(s.sessions, s.userToSession) && Owns(s, uid, sid)
    ensures uid in s.userToSession && s.userToSession[uid] == sid
  {
  }

  /** Exactly uid's share is gone; everybody else's shares keep exactly their other viewers. */
  ghost predicate OthersShare(s: State, s': State, uid: UserId) {
    && s'.channels.Keys == s.channels.Keys
    && (forall c :: c in s.channels ==> s'.channels[c].shares.Keys == s.channels[c].shares.Keys - {uid})
    && (forall c: ChannelId, u: UserId, v: UserId :: u != uid && v != uid ==>
          (Views(s'.channels, c, u, v) <==> Views(s.channels, c, u, v)))
  }

  lemma EndSparesOthers(s: State, uid: UserId, c: ChannelId)
    requires forall x :: x in s.channels && uid in s.channels[x].shares ==> x == c
    ensures OthersShare(s, EndShare(s, uid, c), uid)
  {
    hide ClearWatching;
    assert forall users, s1 :: ClearWatching(s1, users).channels == s1.channels by { ClearingIsLocal(); }
  }

  lemma ClearingIsLocal()
    ensures forall users, s1 :: ClearWatching(s1, users).channels == s1.channels
  {
  }

  lemma RemoveViewerSparesOthers(s: State, viewer: UserId, sharer: UserId, c: ChannelId)
    requires forall x :: x in s.channels ==> viewer !in s.channels[x].shares
    ensures OthersShare(s, RemoveViewer(s, viewer, sharer, c), viewer)
  {
    var s' := RemoveViewer(s, viewer, sharer, c);
    RemoveViewerKeepsSharers(s, viewer, sharer, c);
    forall x: ChannelId, u: UserId, v: UserId | v != viewer
      ensures Views(s'.channels, x, u, v) <==> Views(s.channels, x, u, v)
    {
      RemovedViewer(s, viewer, sharer, c, x, u, v);
    }
    hide RemoveViewer, Views;
  }

  lemma OthersShareCompose(s: State, s1: State, s2: State, uid: UserId)
    requires OthersShare(s, s1, uid) && OthersShare(s1, s2, uid)
    ensures OthersShare(s, s2, uid)
  {
  }

  /** A sharer shares in the channel its session names. */
  lemma SharesAtHome(s: State, uid: UserId, sid: SessionId)
    requires UsersOk(s.sessions, s.userToSession) && ShareInvariant(s) && Owns(s, uid, sid)
    ensures forall c :: c in s.channels && uid in s.channels[c].shares ==> c == s.sessions[sid].channelId
  {
    SessionOfOwner(s, uid, sid);
  }

  lemma StopAsViewerSparesOthers(s: State, uid: UserId, sid: SessionId, c: ChannelId)
    requires forall x :: x in s.channels ==> uid !in s.channels[x].shares
    ensures OthersShare(s, StopAsViewer(s, uid, sid, c), uid)
  {
    hide RemoveViewer, OthersShare;
    if sid in s.sessions && s.sessions[sid].watching.Some? {
      var s1 := RemoveViewer(s, uid, s.sessions[sid].watching.value, c);
      RemoveViewerSparesOthers(s, uid, s.sessions[sid].watching.value, c);
      SameChannelsShare(s, s1, StopAsViewer(s, uid, sid, c), uid);
    } else {
      NothingChanged(s, uid);
    }
  }

  lemma NothingChanged(s: State, uid: UserId)
    requires forall x :: x in s.channels ==> uid !in s.channels[x].shares
    ensures OthersShare(s, s, uid)
  {
  }

  lemma CleanupSparesOthers(s: State, uid: UserId, sid: SessionId)
    requires UsersOk(s.sessions, s.userToSession) && Housed(s.sessions, s.channels)
    requires ShareInvariant(s) && Owns(s, uid, sid)
    ensures OthersShare(s, CleanupShares(s, uid, sid, s.sessions[sid].channelId), uid)
  {
    hide EndShare, UsersOk, ShareInvariant, OthersShare, StopAsViewer;
    var home := s.sessions[sid].channelId;
    var s1 := EndShare(s, uid, home);
    SharesAtHome(s, uid, sid);
    EndSparesOthers(s, uid, home);
    SameChannelsShare(s, s1, Unmark(s1, sid), uid);
    OthersShareUnshares(s, Unmark(s1, sid), uid);
    StopAsViewerSparesOthers(Unmark(s1, sid), uid, sid, home);
    OthersShareCompose(s, Unmark(s1, sid), StopAsViewer(Unmark(s1, sid), uid, sid, home), uid);
  }

  lemma OthersShareUnshares(s: State, s': State, uid: UserId)
    requires OthersShare(s, s', uid)
    ensures forall x :: x in s'.channels ==> uid !in s'.channels[x].shares
  {
  }

  lemma SameChannelsShare(s: State, s1: State, s2: State, uid: UserId)
    requires OthersShare(s, s1, uid) && s2.channels == s1.channels
    ensures OthersShare(s, s2, uid)
  {
  }

  /** Cleaning up in the channel of its session detaches a user, and keeps everybody else's shares. */
  lemma CleanupDetaches(s: State, uid: UserId, sid: SessionId)
    requires UsersOk(s.sessions, s.userToSession) && Housed(s.sessions, s.channels)
    requires ShareInvariant(s) && Owns(s, uid, sid)
    ensures var s' := CleanupShares(s, uid, sid, s.sessions[sid].channelId);
            ShareInvariant(s') && Detached(s', uid, sid) && OthersShare(s, s', uid)
  {
    CleanupSparesOthers(s, uid, sid);
    hide OthersShare;
    hide SharesOk, EndShare, Unmark, StopAsViewer;
    var c := s.sessions[sid].channelId;
    MarkingCommutes(s, uid, sid, c);
    StopShareKeeps(s, uid, sid);
    StoppedIsUnshared(s, uid, sid);
    var s1 := Stopped(s, uid, sid, c);
    StopAsViewerKeeps(s1, uid, sid);
    StopAsViewerUnshared(s1, uid, sid, c);
  }

  lemma StopAsViewerUnshared(s: State, uid: UserId, sid: SessionId, c: ChannelId)
    requires sid in s.sessions && !s.sessions[sid].sharing
    requires forall x :: x in s.channels ==> uid !in s.channels[x].shares
    ensures var s' := StopAsViewer(s, uid, sid, c);
            && sid in s'.sessions && !s'.sessions[sid].sharing
            && forall x :: x in s'.channels ==> uid !in s'.channels[x].shares
  {
    hide RemoveViewer;
    if s.sessions[sid].watching.Some? {
      RemoveViewerKeepsSharers(s, uid, s.sessions[sid].watching.value, c);
    }
  }

  /** In General there is nothing to clean up. */
  lemma GeneralIsDetached(s: State, uid: UserId, sid: SessionId)
    requires UsersOk(s.sessions, s.userToSession) && ShareInvariant(s) && Owns(s, uid, sid)
    requires s.sessions[sid].channelId == GENERAL && GENERAL in s.channels
    ensures Detached(s, uid, sid)
  {
    assert s.userToSession[uid] == sid;
    OnlyWatched(s, uid, sid);
  }

  lemma SameSharesDetached(s: State, s': State, uid: UserId, sid: SessionId)
    requires SameShares(s, s') && Detached(s, uid, sid)
    ensures Detached(s', uid, sid)
  {
    forall c: ChannelId, u: UserId | Views(s'.channels, c, u, uid)
      ensures false
    {
      assert Views(s.channels, c, u, uid);
    }
  }

  // ---------------------------------------------------------------- moving between channels

  /** Moving a detached user, or moving nobody, keeps the shares. */
  lemma MoveKeeps(s: State, s': State, uid: UserId, sid: SessionId, c: ChannelId)
    requires UsersOk(s.sessions, s.userToSession) && ShareInvariant(s) && Owns(s, uid, sid)
    requires s.sessions[sid].channelId == c || Detached(s, uid, sid)
    requires s'.sessions == s.sessions[sid := s.sessions[sid].(channelId := c)] && s'.userToSession == s.userToSession
    requires s'.channels.Keys == s.channels.Keys
    requires forall x :: x in s.channels ==> s'.channels[x].shares == s.channels[x].shares
    ensures ShareInvariant(s')
  {
    if s.sessions[sid].channelId == c {
      assert SameShares(s, s');
      SameSharesKeeps(s, s');
    } else {
      MoveListed(s, s', uid, sid, c);
      MoveViewers(s, s', uid, sid, c);
    }
  }

  lemma MoveListed(s: State, s': State, uid: UserId, sid: SessionId, c: ChannelId)
    requires UsersOk(s.sessions, s.userToSession) && ShareInvariant(s) && Owns(s, uid, sid) && Detached(s, uid, sid)
    requires s'.sessions == s.sessions[sid := s.sessions[sid].(channelId := c)] && s'.userToSession == s.userToSession
    requires s'.channels.Keys == s.channels.Keys
    requires forall x :: x in s.channels ==> s'.channels[x].shares == s.channels[x].shares
    ensures SharersOk(s'.sessions, s'.userToSession, s'.channels) && MarkedOk(s'.sessions, s'.channels)
  {
    forall x, u | x in s'.channels && u in s'.channels[x].shares
      ensures u in s'.userToSession && s'.userToSession[u] in s'.sessions && s'.userToSession[u] != sid
    {
      assert u in s.channels[x].shares;
      assert s.sessions[s.userToSession[u]].userId == u;
    }
  }

  lemma MoveViewers(s: State, s': State, uid: UserId, sid: SessionId, c: ChannelId)
    requires UsersOk(s.sessions, s.userToSession) && ShareInvariant(s) && Owns(s, uid, sid) && Detached(s, uid, sid)
    requires s'.sessions == s.sessions[sid := s.sessions[sid].(channelId := c)] && s'.userToSession == s.userToSession
    requires s'.channels.Keys == s.channels.Keys
    requires forall x :: x in s.channels ==> s'.channels[x].shares == s.channels[x].shares
    ensures ViewersOk(s'.sessions, s'.userToSession, s'.channels)
  {
    forall x: ChannelId, u: UserId, v: UserId | Views(s'.channels, x, u, v)
      ensures v in s'.userToSession && s'.userToSession[v] in s'.sessions
      ensures s'.sessions[s'.userToSession[v]].watching == Some(u) && s'.sessions[s'.userToSession[v]].channelId == x
    {
      assert Views(s.channels, x, u, v);
      assert s.sessions[s.userToSession[v]].userId == v;
    }
  }

  lemma DepartKeepsShares(cfg: Config, s: State, uid: UserId, sid: SessionId, c: ChannelId)
    requires Invariant(cfg, s) && ShareInvariant(s) && Owns(s, uid, sid)
    ensures var s2 := Depart(s, uid, sid, c);
            && ShareInvariant(s2) && sid in s2.sessions
            && (s2.sessions[sid].channelId == c || Detached(s2, uid, sid))
  {
    hide Invariant, SharesOk, CleanupShares, LeaveAndTime, SameSeats;
    var from := ChannelOf(s, sid);
    InvariantParts(cfg, s);
    var s1 := if from != c && from != GENERAL then CleanupShares(s, uid, sid, from) else s;
    if from != c {
      if from == GENERAL {
        GeneralIsDetached(s, uid, sid);
      } else {
        CleanupDetaches(s, uid, sid);
      }
    }
    var s2 := LeaveAndTime(s1, uid, sid);
    LeaveAndTimeSameShares(s1, uid, sid);
    SameSharesKeeps(s1, s2);
    if from != c {
      SameSharesDetached(s1, s2, uid, sid);
    }
  }

  lemma JoinAfterDepartKeeps(cfg: Config, s: State, uid: UserId, sid: SessionId, c: ChannelId, attempt: Option<string>)
    requires Invariant(cfg, s) && ShareInvariant(s) && Owns(s, uid, sid) && ValidateJoin(cfg, s, c, attempt, uid).None?
    ensures ShareInvariant(Join(cfg, Depart(s, uid, sid, c), uid, sid, c, attempt))
  {
    hide Invariant, Core, Seated, SharesOk, ValidateJoin, Depart, Join, Detached;
    var s2 := Depart(s, uid, sid, c);
    DepartKeepsShares(cfg, s, uid, sid, c);
    DepartKeepsCore(cfg, s, uid, sid, c);
    StillOpenAfterDepart(cfg, s, uid, sid, c, attempt);
    JoinIs(cfg, s2, uid, sid, c, attempt);
    CoreUsers(cfg, s2);
    OpenChannelExists(cfg, s2, c, attempt, uid);
    MoveKeeps(s2, Join(cfg, s2, uid, sid, c, attempt), uid, sid, c);
  }

  lemma InvariantParts(cfg: Config, s: State)
    requires Invariant(cfg, s)
    ensures UsersOk(s.sessions, s.userToSession) && Housed(s.sessions, s.channels) && GENERAL in s.channels
  {
  }

  lemma OpenChannelExists(cfg: Config, s: State, c: ChannelId, attempt: Option<string>, uid: UserId)
    requires ValidateJoin(cfg, s, c, attempt, uid).None?
    ensures c in s.channels
  {
  }

  lemma CoreUsers(cfg: Config, s: State)
    requires Core(cfg, s)
    ensures UsersOk(s.sessions, s.userToSession)
  {
  }

  lemma ChargeSameShares(s: State, sid: SessionId, attempt: Option<string>, now: real)
    ensures SameShares(s, ChargePassword(s, sid, attempt, now))
  {
  }

  lemma HandleJoinKeepsShares(cfg: Config, s: State, uid: UserId, sid: SessionId, c: ChannelId, attempt: Option<string>, now: real)
    requires Invariant(cfg, s) && ShareInvariant(s) && Owns(s, uid, sid)
    ensures ShareInvariant(HandleJoin(cfg, s, uid, sid, c, attempt, now))
  {
    hide Invariant, SharesOk, HandleJoin, JoinOutcomeOf, Join, Depart, ValidateJoin;
    var s0 := ChargePassword(s, sid, attempt, now);
    JoinNeverFallsBack(cfg, s, uid, sid, c, attempt, now);
    HandleJoinIs(cfg, s, uid, sid, c, attempt, now);
    ChargeKeepsInvariant(cfg, s, uid, sid, attempt, now);
    ChargeSameShares(s, sid, attempt, now);
    SameSharesKeeps(s, s0);
    if JoinOutcomeOf(cfg, s, uid, sid, c, attempt, now) == Joined {
      JoinAfterDepartKeeps(cfg, s0, uid, sid, c, attempt);
    }
  }

  lemma CreateKeepsShares(cfg: Config, s: State, name: string, password: Option<string>, uid: UserId)
    requires ShareInvariant(s) && (CreateRefusal(cfg, s, name).None? ==> s.next.channel !in s.channels)
    ensures ShareInvariant(Create(cfg, s, name, password, uid))
  {
    hide SharesOk, CreateRefusal;
    if CreateRefusal(cfg, s, name).None? {
      NewChannelKeeps(s, Create(cfg, s, name, password, uid), s.next.channel, NewChannel(name, password, uid));
    }
  }

  lemma NewChannelKeeps(s: State, s': State, c: ChannelId, ch: Channel)
    requires ShareInvariant(s) && c !in s.channels && ch.shares == map[]
    requires s'.sessions == s.sessions && s'.userToSession == s.userToSession && s'.channels == s.channels[c := ch]
    ensures ShareInvariant(s')
  {
    forall x: ChannelId, u: UserId, v: UserId | Views(s'.channels, x, u, v)
      ensures Views(s.channels, x, u, v)
    {
    }
  }

  lemma DisconnectKeepsShares(cfg: Config, s: State, uid: UserId, sid: SessionId)
    requires Invariant(cfg, s) && ShareInvariant(s) && Owns(s, uid, sid)
    ensures ShareInvariant(Disconnect(cfg, s, uid, sid))
  {
    hide Invariant, SharesOk, CleanupShares, LeaveAndTime, RemoveSession, SameSeats;
    var c := ChannelOf(s, sid);
    InvariantParts(cfg, s);
    var s1 := if c != GENERAL then CleanupShares(s, uid, sid, c) else s;
    if c == GENERAL {
      GeneralIsDetached(s, uid, sid);
    } else {
      CleanupDetaches(s, uid, sid);
    }
    var s2 := LeaveAndTime(s1, uid, sid);
    LeaveAndTimeSameShares(s1, uid, sid);
    SameSharesKeeps(s1, s2);
    SameSharesDetached(s1, s2, uid, sid);
    DisconnectSteps(cfg, s, uid, sid);
    RemoveKeeps(s2, RemoveSession(cfg, s2, sid), uid, sid);
  }

  /** The last step of a disconnect, in terms of what shares depend on. */
  lemma DisconnectSteps(cfg: Config, s: State, uid: UserId, sid: SessionId)
    requires Invariant(cfg, s) && Owns(s, uid, sid)
    ensures var c := ChannelOf(s, sid);
            var s2 := LeaveAndTime(if c != GENERAL then CleanupShares(s, uid, sid, c) else s, uid, sid);
            var s3 := RemoveSession(cfg, s2, sid);
            && Owns(s2, uid, sid) && UsersOk(s2.sessions, s2.userToSession)
            && s3.sessions == s2.sessions - {sid} && s3.userToSession == s2.userToSession - {uid}
            && s3.channels == s2.channels
  {
    hide CleanupShares, LeaveAndTime, RemoveSession, Seated;
    var c := ChannelOf(s, sid);
    var s1 := if c != GENERAL then CleanupShares(s, uid, sid, c) else s;
    CleanupMovesNobody(s, uid, sid, c);
    SameSeatsKeepsCore(cfg, s, s1);
    LeaveAndTimeKeepsCore(cfg, s1, uid, sid);
    LeaveAndTimeIsLocal(s1, uid, sid);
    RemoveSessionIs(cfg, LeaveAndTime(s1, uid, sid), sid);
  }

  lemma RemoveKeeps(s: State, s': State, uid: UserId, sid: SessionId)
    requires UsersOk(s.sessions, s.userToSession) && ShareInvariant(s) && Owns(s, uid, sid) && Detached(s, uid, sid)
    requires s'.sessions == s.sessions - {sid} && s'.userToSession == s.userToSession - {uid} && s'.channels == s.channels
    ensures ShareInvariant(s')
  {
    RemoveKeepsListed(s, s', uid, sid);
    hide UsersOk, SharersOk, MarkedOk, Views;
    RemoveKeepsViewers(s, s', uid, sid);
  }

  lemma RemoveKeepsListed(s: State, s': State, uid: UserId, sid: SessionId)
    requires UsersOk(s.sessions, s.userToSession) && Owns(s, uid, sid) && Detached(s, uid, sid)
    requires SharersOk(s.sessions, s.userToSession, s.channels) && MarkedOk(s.sessions, s.channels)
    requires s'.sessions == s.sessions - {sid} && s'.userToSession == s.userToSession - {uid} && s'.channels == s.channels
    ensures SharersOk(s'.sessions, s'.userToSession, s'.channels) && MarkedOk(s'.sessions, s'.channels)
  {
    hide Unlisted;
    forall x, u | x in s.channels && u in s.channels[x].shares
      ensures u in s'.userToSession && s'.userToSession[u] in s'.sessions
    {
      assert s.sessions[s.userToSession[u]].userId == u;
    }
  }

  lemma RemoveKeepsViewers(s: State, s': State, uid: UserId, sid: SessionId)
    requires UsersOk(s.sessions, s.userToSession) && Owns(s, uid, sid) && Unlisted(s.channels, uid, {})
    requires ViewersOk(s.sessions, s.userToSession, s.channels)
    requires s'.sessions == s.sessions - {sid} && s'.userToSession == s.userToSession - {uid} && s'.channels == s.channels
    ensures ViewersOk(s'.sessions, s'.userToSession, s'.channels)
  {
    hide Views;
    forall x: ChannelId, u: UserId, v: UserId | Views(s.channels, x, u, v)
      ensures v in s'.userToSession && s'.userToSession[v] in s'.sessions
    {
      assert s.sessions[s.userToSession[v]].userId == v;
    }
  }

  /** A timer deletes a channel that holds no share, since nobody is in it. */
  lemma FireTimerKeepsShares(cfg: Config, s: State, t: TimerId)
    requires Invariant(cfg, s) && ShareInvariant(s)
    ensures ShareInvariant(FireTimer(s, t))
  {
    hide Core, Seated;
    if t in s.timers {
      TimerFindsEmptyChannel(cfg, s, t);
      DeletionKeeps(s, FireTimer(s, t), s.timers[t]);
    }
  }

  lemma DeletionKeeps(s: State, s': State, c: ChannelId)
    requires ShareInvariant(s) && forall sid :: sid in s.sessions ==> s.sessions[sid].channelId != c
    requires s'.sessions == s.sessions && s'.userToSession == s.userToSession && s'.channels == s.channels - {c}
    ensures ShareInvariant(s')
  {
    forall x: ChannelId, u: UserId, v: UserId | Views(s'.channels, x, u, v)
      ensures Views(s.channels, x, u, v)
    {
    }
  }

  lemma LoginKeepsShares(cfg: Config, s: State, name: string, token: int, ip: int, now: real)
    requires ShareInvariant(s)
    requires LoggedIn(cfg, s, name) ==> s.next.user !in s.userToSession && s.next.session !in s.sessions
    ensures ShareInvariant(Login(cfg, s, name, token, ip, now))
  {
    hide SharesOk, NewBucket;
    if LoggedIn(cfg, s, name) {
      var x := Session(s.next.user, name, GENERAL, false, None, None, token, ip,
                       NewBucket(3.0, 1.0, now), NewBucket(1.0, 0.2, now));
      NewcomerKeeps(s, Login(cfg, s, name, token, ip, now), s.next.user, s.next.session, x);
    }
  }

  lemma NewcomerKeeps(s: State, s': State, uid: UserId, sid: SessionId, x: Session)
    requires ShareInvariant(s) && sid !in s.sessions && uid !in s.userToSession && !x.sharing
    requires s'.sessions == s.sessions[sid := x] && s'.userToSession == s.userToSession[uid := sid] && s'.channels == s.channels
    ensures ShareInvariant(s')
  {
    hide Views;
    forall c: ChannelId, u: UserId, v: UserId | Views(s'.channels, c, u, v)
      ensures v != uid && s'.userToSession[v] != sid
    {
      assert Views(s.channels, c, u, v);
    }
  }

  // ---------------------------------------------------------------- kicks

  /** The target neither shares nor watches in channel c. */
  predicate Uninvolved(s: State, c: ChannelId, target: UserId)
    requires c in s.channels
  {
    && target !in s.channels[c].shares
    && forall u :: u in s.channels[c].shares ==> target !in s.channels[c].shares[u].viewers
  }

  /** A kick moves the target's session to General and touches no share. */
  lemma KickMoves(cfg: Config, s: State, requester: UserId, c: ChannelId, target: UserId)
    requires Invariant(cfg, s) && KickRefusal(s, c, requester, target).None?
    ensures var s', sid := HandleKick(cfg, s, requester, c, target), s.userToSession[target];
            && Owns(s, target, sid) && s.sessions[sid].channelId == c && GENERAL != c
            && s'.sessions == s.sessions[sid := s.sessions[sid].(channelId := GENERAL)] && s'.userToSession == s.userToSession
            && s'.channels.Keys == s.channels.Keys
            && forall x :: x in s.channels ==> s'.channels[x].shares == s.channels[x].shares
  {
    hide Core, Seated, Kick, Join, StartDeleteTimer, ValidateJoin, Nowhere, Admit;
    var s1, sid := Kick(s, c, requester, target), s.userToSession[target];
    KickKeepsCore(cfg, s, c, requester, target);
    KickEffect(cfg, s, requester, c, target);
    OpenChannelExists(cfg, s1, GENERAL, None, target);
    JoinIs(cfg, s1, target, sid, GENERAL, None);
    AdmitKeepsShares(s1.channels[GENERAL], target);
    var s2 := Join(cfg, s1, target, sid, GENERAL, None);
    hide PutIn;
    TimerKeepsSeats(s2, c);
  }

  lemma AdmitKeepsShares(ch: Channel, uid: UserId)
    ensures Admit(ch, uid).shares == ch.shares
  {
  }

  lemma KickEffect(cfg: Config, s: State, requester: UserId, c: ChannelId, target: UserId)
    requires Invariant(cfg, s) && KickRefusal(s, c, requester, target).None?
    ensures s.userToSession[target] in s.sessions && s.sessions[s.userToSession[target]].userId == target
    ensures s.sessions[s.userToSession[target]].channelId == c && GENERAL != c
    ensures var s1 := Kick(s, c, requester, target);
            && s1.sessions == s.sessions && s1.userToSession == s.userToSession && s1.channels.Keys == s.channels.Keys
            && forall x :: x in s.channels ==> s1.channels[x].shares == s.channels[x].shares
  {
    hide Seated, NamesOk, Numbered, ChannelsOk, Housed, TimersOk, AddressesOk;
    assert target in s.channels[c].members && c in s.channels;
  }

  lemma UninvolvedIsDetached(s: State, c: ChannelId, target: UserId, sid: SessionId)
    requires UsersOk(s.sessions, s.userToSession) && ShareInvariant(s) && Owns(s, target, sid)
    requires s.sessions[sid].channelId == c && c in s.channels && Uninvolved(s, c, target)
    ensures Detached(s, target, sid)
  {
    assert s.userToSession[target] == sid;
    OnlyWatched(s, target, sid);
  }

  /** A kick keeps the screen-share invariant if and only if its target was neither sharing nor watching there. */
  lemma KickKeepsSharesIff(cfg: Config, s: State, requester: UserId, c: ChannelId, target: UserId)
    requires Invariant(cfg, s) && ShareInvariant(s) && KickRefusal(s, c, requester, target).None?
    ensures ShareInvariant(HandleKick(cfg, s, requester, c, target)) <==> Uninvolved(s, c, target)
  {
    hide Invariant, HandleKick;
    var s', sid := HandleKick(cfg, s, requester, c, target), s.userToSession[target];
    InvariantParts(cfg, s);
    KickMoves(cfg, s, requester, c, target);
    if Uninvolved(s, c, target) {
      UninvolvedIsDetached(s, c, target, sid);
      MoveKeeps(s, s', target, sid, GENERAL);
    } else {
      InvolvedBreaks(s, s', c, target, sid);
    }
  }

  lemma InvolvedBreaks(s: State, s': State, c: ChannelId, target: UserId, sid: SessionId)
    requires Owns(s, target, sid) && target in s.userToSession && s.userToSession[target] == sid && c != GENERAL
    requires s'.sessions == s.sessions[sid := s.sessions[sid].(channelId := GENERAL)] && s'.userToSession == s.userToSession
    requires s'.channels.Keys == s.channels.Keys
    requires forall x :: x in s.channels ==> s'.channels[x].shares == s.channels[x].shares
    requires c in s.channels && !Uninvolved(s, c, target)
    ensures !ShareInvariant(s')
  {
    if target in s.channels[c].shares {
      assert s'.sessions[s'.userToSession[target]].channelId == GENERAL;
    } else {
      var u :| u in s.channels[c].shares && target in s.channels[c].shares[u].viewers;
      assert Views(s'.channels, c, u, target);
    }
  }

  // ---------------------------------------------------------------- every step and every run

  /** A kick that takes effect on somebody who shares or watches in that channel. */
  predicate KicksInvolved(s: State, e: Event) {
    && e.KickEv? && e.sid in s.sessions
    && KickRefusal(s, e.c, s.sessions[e.sid].userId, e.target).None?
    && !Uninvolved(s, e.c, e.target)
  }

  lemma EditKeepsShares(s: State, c: ChannelId, ch: Channel)
    requires ShareInvariant(s) && c in s.channels && ch.shares == s.channels[c].shares
    ensures ShareInvariant(WithChannel(s, c, ch))
  {
    SameSharesKeeps(s, WithChannel(s, c, ch));
  }

  // ---------------------------------------------------------------- creations

  /** Whoever is listed as sharing in a channel is a member of it, by the session it is listed with. */
  lemma SharerIsMember(s: State, c: ChannelId, u: UserId)
    requires SharersOk(s.sessions, s.userToSession, s.channels) && UsersOk(s.sessions, s.userToSession)
    requires Seated(s.sessions, s.channels, {}) && c in s.channels && c != GENERAL && u in s.channels[c].shares
    ensures u in s.channels[c].members && s.userToSession[u] in s.sessions
    ensures s.sessions[s.userToSession[u]].sharing && s.sessions[s.userToSession[u]].channelId == c
  {
    assert s.sessions[s.userToSession[u]].userId == u;
  }

  /** Nobody shares in a channel without members. */
  lemma NobodySharesThere(cfg: Config, s: State, c: ChannelId)
    requires Invariant(cfg, s) && ShareInvariant(s) && c in s.channels && c != GENERAL && s.channels[c].members == {}
    ensures s.channels[c].shares == map[]
  {
    hide SharersOk, UsersOk, Seated, NamesOk, Numbered, ChannelsOk, Housed, MembersOk, TimersOk, AddressesOk, ViewersOk, MarkedOk;
    if u :| u in s.channels[c].shares {
      SharerIsMember(s, c, u);
    }
  }

  /** In a channel where one user is alone, nobody else shares. */
  lemma OnlyMemberShares(cfg: Config, s: State, c: ChannelId, uid: UserId, sid: SessionId)
    requires Invariant(cfg, s) && ShareInvariant(s) && Owns(s, uid, sid)
    requires c in s.channels && c != GENERAL && s.channels[c].members == {uid} && s.channels[c].shares != map[]
    ensures s.sessions[sid].sharing && s.sessions[sid].channelId == c
  {
    hide SharersOk, UsersOk, Seated, NamesOk, Numbered, ChannelsOk, Housed, MembersOk, TimersOk, AddressesOk, ViewersOk, MarkedOk;
    SessionOfOwner(s, uid, sid);
    var u :| u in s.channels[c].shares;
    SharerIsMember(s, c, u);
  }

  lemma CreatedSameShares(s: State, name: string, password: Option<string>, uid: UserId)
    requires s.next.channel in s.channels && s.channels[s.next.channel].shares == map[]
    ensures SameShares(s, Created(s, name, password, uid))
  {
  }

  lemma SameSharesCompose(s: State, s1: State, s2: State)
    requires SameShares(s, s1) && SameShares(s1, s2)
    ensures SameShares(s, s2)
  {
  }

  lemma PutBackSameShares(s: State, uid: UserId, sid: SessionId, c: ChannelId)
    requires c in s.channels && sid in s.sessions && s.sessions[sid].channelId == c
    ensures SameShares(s, PutIn(s, uid, sid, c))
  {
  }

  lemma ReplacedShareBreaks(s: State, name: string, password: Option<string>, uid: UserId, sid: SessionId, now: real)
    requires Owns(s, uid, sid) && s.sessions[sid].sharing && s.sessions[sid].channelId == s.next.channel
    ensures var c, s0 := s.next.channel, ChargePassword(Created(s, name, password, uid), sid, password, now);
            c in s0.channels && !ShareInvariant(PutIn(s0, uid, sid, c))
  {
    hide TryConsume;
    var c, s0 := s.next.channel, ChargePassword(Created(s, name, password, uid), sid, password, now);
    var s' := PutIn(s0, uid, sid, c);
    assert s'.sessions[sid].sharing && s'.sessions[sid].channelId == c && s'.sessions[sid].userId == uid;
    assert s'.channels[c].shares == map[];
  }

  lemma OwnerReplacesShareIff(cfg: Config, s: State, name: string, password: Option<string>, uid: UserId, sid: SessionId, now: real)
    requires Invariant(cfg, s) && ShareInvariant(s) && Owns(s, uid, sid) && CreateRefusal(cfg, s, name).None?
    requires s.next.channel in s.channels && s.next.channel != GENERAL && s.channels[s.next.channel].members == {uid}
    requires PasswordAllowed(s, sid, password, now)
    ensures ShareInvariant(AfterCreation(cfg, s, name, password, uid, sid, now)) <==> s.channels[s.next.channel].shares == map[]
  {
    hide Invariant, ShareInvariant, SameShares, CreateRefusal, PasswordAllowed, AfterCreation, Created, ChargePassword, PutIn;
    var c := s.next.channel;
    OwnerIsPutBack(cfg, s, name, password, uid, sid, now);
    if s.channels[c].shares == map[] {
      OwnerSharesNothing(cfg, s, name, password, uid, sid, now);
    } else {
      OnlyMemberShares(cfg, s, c, uid, sid);
      ReplacedShareBreaks(s, name, password, uid, sid, now);
    }
  }

  lemma OwnerSharesNothing(cfg: Config, s: State, name: string, password: Option<string>, uid: UserId, sid: SessionId, now: real)
    requires Invariant(cfg, s) && ShareInvariant(s) && Owns(s, uid, sid)
    requires s.next.channel in s.channels && s.next.channel != GENERAL && s.channels[s.next.channel].members == {uid}
    requires s.channels[s.next.channel].shares == map[]
    ensures var c, s0 := s.next.channel, ChargePassword(Created(s, name, password, uid), sid, password, now);
            c in s0.channels && ShareInvariant(PutIn(s0, uid, sid, c))
  {
    hide Invariant, ShareInvariant, SameShares, ChargePassword, Created, PutIn;
    var c, s1 := s.next.channel, Created(s, name, password, uid);
    var s0 := ChargePassword(s1, sid, password, now);
    CreatedSameShares(s, name, password, uid);
    ChargeSameShares(s1, sid, password, now);
    SameSharesCompose(s, s1, s0);
    AloneMemberIsHere(cfg, s, c, uid, sid);
    SameSharesSeat(s, s0, sid);
    PutBackSameShares(s0, uid, sid, c);
    SameSharesCompose(s, s0, PutIn(s0, uid, sid, c));
    SameSharesKeeps(s, PutIn(s0, uid, sid, c));
  }

  lemma SameSharesSeat(s: State, s': State, sid: SessionId)
    requires SameShares(s, s') && sid in s.sessions
    ensures s'.channels.Keys == s.channels.Keys && sid in s'.sessions && s'.sessions[sid].channelId == s.sessions[sid].channelId
  {
  }

  lemma AloneMemberIsHere(cfg: Config, s: State, c: ChannelId, uid: UserId, sid: SessionId)
    requires Invariant(cfg, s) && Owns(s, uid, sid) && c in s.channels && uid in s.channels[c].members
    ensures s.sessions[sid].channelId == c
  {
    assert s.userToSession[uid] == sid;
  }

  lemma EmptyReplacementKeepsShares(cfg: Config, s: State, name: string, password: Option<string>, uid: UserId, sid: SessionId, now: real)
    requires Invariant(cfg, s) && ShareInvariant(s) && Owns(s, uid, sid)
    requires s.next.channel in s.channels && s.next.channel != GENERAL
    requires s.channels[s.next.channel].members == {} && s.channels[s.next.channel].deleteTimer.None?
    ensures ShareInvariant(AfterCreation(cfg, s, name, password, uid, sid, now)) && s.channels[s.next.channel].shares == map[]
  {
    hide Invariant, ShareInvariant, SameShares, Created, HandleJoin;
    var s1 := Created(s, name, password, uid);
    NobodySharesThere(cfg, s, s.next.channel);
    CreatedSameShares(s, name, password, uid);
    SameSharesKeeps(s, s1);
    ReplacedEmpty(cfg, s, name, password, uid);
    StillOwns(s, name, password, uid, sid);
    HandleJoinKeepsShares(cfg, s1, uid, sid, s.next.channel, password, now);
  }

  /** The channel whose number is drawn again holds a share. */
  predicate ReplacesShare(cfg: Config, s: State, e: Event) {
    Creates(cfg, s, e) && s.next.channel in s.channels && s.channels[s.next.channel].shares != map[]
  }

  /** A creation keeps the shares unless it replaces one, even where the counter of channels has wrapped. */
  lemma CreateStepKeepsSharesIff(cfg: Config, s: State, e: Event)
    requires Invariant(cfg, s) && ShareInvariant(s) && DrawsHarmless(cfg, s, e)
    requires e.CreateEv? && e.sid in s.sessions
    ensures ShareInvariant(HandleMessage(cfg, s, s.sessions[e.sid].userId, e)) <==> !ReplacesShare(cfg, s, e)
  {
    hide Invariant, ShareInvariant, SameShares, HandleCreate, ChannelCreated, CreateAllowed, Replaceable, ChargeCreate;
    var uid, sid := s.sessions[e.sid].userId, e.sid;
    var s0 := ChargeCreate(s, sid, e.now);
    ChargeCreateKeepsInvariant(cfg, s, uid, sid, e.now);
    ChargeCreateIs(cfg, s, uid, sid, Trim(e.name), e.attempt, e.now);
    ChargeCreateSameShares(s, sid, e.now);
    SameSharesKeeps(s, s0);
    if CreateAllowed(s, sid, e.now) {
      HandleCreateKeepsSharesIff(cfg, s0, uid, sid, Trim(e.name), e.attempt, e.now);
    }
  }

  lemma ChargeCreateSameShares(s: State, sid: SessionId, now: real)
    ensures SameShares(s, ChargeCreate(s, sid, now))
  {
  }

  lemma HandleCreateKeepsSharesIff(cfg: Config, s: State, uid: UserId, sid: SessionId, name: string, password: Option<string>, now: real)
    requires Invariant(cfg, s) && ShareInvariant(s) && Owns(s, uid, sid)
    requires ChannelCreated(cfg, s, name) && s.next.channel in s.channels ==> Replaceable(s, uid, sid, s.next.channel, password, now)
    ensures ShareInvariant(HandleCreate(cfg, s, uid, sid, name, password, now)) <==>
            !(ChannelCreated(cfg, s, name) && s.next.channel in s.channels && s.channels[s.next.channel].shares != map[])
  {
    hide Invariant, ShareInvariant, HandleJoin, NameAccepted, CreateRefusal;
    if ChannelCreated(cfg, s, name) {
      if s.next.channel !in s.channels {
        CreateKeepsShares(cfg, s, name, password, uid);
        CreateKeepsInvariant(cfg, s, name, password, uid);
        HandleJoinKeepsShares(cfg, Create(cfg, s, name, password, uid), uid, sid, s.next.channel, password, now);
      } else if s.channels[s.next.channel].members == {} {
        EmptyReplacementKeepsShares(cfg, s, name, password, uid, sid, now);
      } else {
        OwnerReplacesShareIff(cfg, s, name, password, uid, sid, now);
      }
    }
  }

  lemma MessageKeepsShares(cfg: Config, s: State, uid: UserId, e: Event)
    requires Invariant(cfg, s) && ShareInvariant(s)
    requires !e.LoginEv? && !e.TimerEv? && !e.DatagramEv? && !e.KickEv? && !e.CreateEv? && Owns(s, uid, e.sid)
    ensures ShareInvariant(HandleMessage(cfg, s, uid, e))
  {
    hide Invariant, ShareInvariant, HandleJoin, Disconnect, StartShare, EndShare, Unmark, Watch, StopWatching;
    InvariantParts(cfg, s);
    match e
    case JoinEv(sid, c, attempt, now) => HandleJoinKeepsShares(cfg, s, uid, sid, c, attempt, now);
    case PasswordEv(_, c, attempt) =>
      if SetPasswordRefusal(s, c, uid).None? {
        EditKeepsShares(s, c, s.channels[c].(hasPassword := attempt.Some?, password := attempt));
      }
    case InviteEv(_, c, guest) =>
      if InviteRefusal(s, c, uid, guest).None? {
        EditKeepsShares(s, c, s.channels[c].(invited := s.channels[c].invited + {guest}));
      }
    case DeclineEv(_, c) =>
      if c in s.channels {
        EditKeepsShares(s, c, s.channels[c].(invited := s.channels[c].invited - {uid}));
      }
    case StartShareEv(sid, resolution) => StartShareKeeps(s, uid, sid, resolution);
    case StopShareEv(sid) =>
      StopShareKeeps(s, uid, sid);
    case WatchEv(sid, sharer) => WatchKeeps(s, uid, sid, sharer);
    case StopWatchingEv(sid) => StopWatchingKeeps(s, uid, sid);
    case DisconnectEv(sid) => DisconnectKeepsShares(cfg, s, uid, sid);
  }

  lemma LearnedSession(cfg: Config, s: State, src: Addr, claimed: SessionId, token: int)
    requires !LearningRefused(cfg, s, src, claimed, token)
    ensures claimed in s.sessions
  {
  }

  lemma DatagramKeepsShares(cfg: Config, s: State, src: Addr, claimed: SessionId, token: int)
    requires ShareInvariant(s)
    ensures ShareInvariant(Resolve(cfg, s, src, claimed, token))
  {
    hide ShareInvariant, SameShares, Resolved;
    var s' := Resolve(cfg, s, src, claimed, token);
    if src in s.addrToSession || LearningRefused(cfg, s, src, claimed, token) || s.sessions[claimed].udpAddr.Some? {
      SameSessionsSameShares(s, s');
    } else {
      LearnedSession(cfg, s, src, claimed, token);
      BoundSameShares(s, s', src, claimed);
    }
    SameSharesKeeps(s, s');
  }

  lemma SameSessionsSameShares(s: State, s': State)
    requires s' == s.(addrToSession := s'.addrToSession)
    ensures SameShares(s, s')
  {
  }

  lemma BoundSameShares(s: State, s': State, src: Addr, sid: SessionId)
    requires sid in s.sessions && s' == s.(sessions := Bound(s.sessions, sid, src), addrToSession := s'.addrToSession)
    ensures SameShares(s, s')
  {
  }

  /** What takes a channel away from under a share: a kick of whoever is involved, or a number drawn again. */
  predicate BreaksShares(cfg: Config, s: State, e: Event) {
    KicksInvolved(s, e) || ReplacesShare(cfg, s, e)
  }

  /**
   Exactly two kinds of event break the invariant: kicks of involved users, and creations that replace
   a channel with a share in it. Every other event keeps it.
   */
  lemma StepKeepsSharesIff(cfg: Config, s: State, e: Event)
    requires Invariant(cfg, s) && ShareInvariant(s) && DrawsHarmless(cfg, s, e)
    ensures ShareInvariant(Step(cfg, s, e)) <==> !BreaksShares(cfg, s, e)
  {
    hide Invariant, ShareInvariant, HandleMessage, Login, FireTimer, Resolve, Uninvolved, CreateAllowed, ChannelCreated, Replaceable;
    if e.LoginEv? {
      LoginKeepsShares(cfg, s, e.name, e.token, e.ip, e.now);
    } else if e.TimerEv? {
      FireTimerKeepsShares(cfg, s, e.timer);
    } else if e.DatagramEv? {
      DatagramKeepsShares(cfg, s, e.src, e.sid, e.token);
    } else if e.sid in s.sessions {
      StepIsMessage(cfg, s, e);
      if e.KickEv? {
        KickStep(cfg, s, e);
      } else if e.CreateEv? {
        CreateStepKeepsSharesIff(cfg, s, e);
      } else {
        MessageKeepsShares(cfg, s, s.sessions[e.sid].userId, e);
      }
    }
  }

  lemma KickStep(cfg: Config, s: State, e: Event)
    requires Invariant(cfg, s) && ShareInvariant(s) && e.KickEv? && e.sid in s.sessions
    ensures ShareInvariant(HandleMessage(cfg, s, s.sessions[e.sid].userId, e)) <==> !KicksInvolved(s, e)
  {
    hide Invariant, ShareInvariant, Uninvolved, Join, StartDeleteTimer;
    var uid := s.sessions[e.sid].userId;
    KickNeverHalfDone(cfg, s, e.c, uid, e.target);
    if KickRefusal(s, e.c, uid, e.target).None? {
      KickKeepsSharesIff(cfg, s, uid, e.c, e.target);
    }
  }

  ghost predicate SparesShares(cfg: Config, s: State, es: seq<Event>)
    decreases |es|
  {
    es == [] || (!BreaksShares(cfg, s, es[0]) && SparesShares(cfg, Step(cfg, s, es[0]), es[1..]))
  }

  /** Both invariants hold after each of the events. */
  ghost predicate SharesThroughout(cfg: Config, s: State, es: seq<Event>)
    decreases |es|
  {
    Invariant(cfg, s) && ShareInvariant(s) && (es == [] || SharesThroughout(cfg, Step(cfg, s, es[0]), es[1..]))
  }

  /** A run keeps both invariants all along if and only if its draws are harmless and it spares the shares. */
  lemma {:induction false} SharesThroughoutIff(cfg: Config, s: State, es: seq<Event>)
    requires Invariant(cfg, s) && ShareInvariant(s)
    ensures SharesThroughout(cfg, s, es) <==> AllDrawsHarmless(cfg, s, es) && SparesShares(cfg, s, es)
    decreases |es|
  {
    hide Invariant, ShareInvariant, Step, BreaksShares, DrawsHarmless;
    if es != [] {
      StepKeepsInvariantIff(cfg, s, es[0]);
      if DrawsHarmless(cfg, s, es[0]) {
        StepKeepsSharesIff(cfg, s, es[0]);
      }
      if DrawsHarmless(cfg, s, es[0]) && !BreaksShares(cfg, s, es[0]) {
        SharesThroughoutIff(cfg, Step(cfg, s, es[0]), es[1..]);
      } else {
        SharesBrokenAtOnce(cfg, Step(cfg, s, es[0]), es[1..]);
      }
    }
  }

  lemma SharesBrokenAtOnce(cfg: Config, s: State, es: seq<Event>)
    requires !Invariant(cfg, s) || !ShareInvariant(s)
    ensures !SharesThroughout(cfg, s, es)
  {
    hide Invariant, ShareInvariant, Step;
  }

  lemma {:induction false} SharesAtTheEnd(cfg: Config, s: State, es: seq<Event>)
    requires SharesThroughout(cfg, s, es)
    ensures ShareInvariant(Run(cfg, s, es)) && Invariant(cfg, Run(cfg, s, es))
    decreases |es|
  {
    hide Invariant, ShareInvariant, Step;
    if es != [] {
      SharesAtTheEnd(cfg, Step(cfg, s, es[0]), es[1..]);
    }
  }

  lemma RunKeepsShares(cfg: Config, s: State, es: seq<Event>)
    requires Invariant(cfg, s) && ShareInvariant(s) && AllDrawsHarmless(cfg, s, es) && SparesShares(cfg, s, es)
    ensures ShareInvariant(Run(cfg, s, es)) && Invariant(cfg, Run(cfg, s, es))
  {
    hide Invariant, ShareInvariant, Run, SharesThroughout, AllDrawsHarmless, SparesShares;
    SharesThroughoutIff(cfg, s, es);
    SharesAtTheEnd(cfg, s, es);
  }

  /**
   From start-up on, in every run that kicks no sharer or viewer and replaces no share: listed sharers
   are connected, and a user is listed as sharing in a channel exactly when its session is marked so
   and in that channel; viewers watch what they are listed under; nobody watches two shares; General
   has none.
   */
  lemma SharesInEveryRun(cfg: Config, entries: seq<ChannelEntry>, es: seq<Event>)
    requires |entries| < U32 - 1 && AllDrawsHarmless(cfg, Initial(entries), es)
    requires SparesShares(cfg, Initial(entries), es)
    ensures var s := Run(cfg, Initial(entries), es);
            && (forall c, sid :: c in s.channels && sid in s.sessions ==>
                  (s.sessions[sid].userId in s.channels[c].shares <==>
                   s.sessions[sid].sharing && s.sessions[sid].channelId == c))
            && SharersOk(s.sessions, s.userToSession, s.channels)
            && ViewersOk(s.sessions, s.userToSession, s.channels)
            && (forall c: ChannelId, c': ChannelId, u: UserId, u': UserId, v: UserId ::
                  Views(s.channels, c, u, v) && Views(s.channels, c', u', v) ==> c == c' && u == u')
            && GENERAL in s.channels && s.channels[GENERAL].shares == map[]
  {
    hide Invariant, Run;
    InitialIsInvariant(cfg, entries);
    RunKeepsShares(cfg, Initial(entries), es);
    var s := Run(cfg, Initial(entries), es);
    InvariantParts(cfg, s);
    OneShareAtATime(s);
    forall c, sid | c in s.channels && sid in s.sessions
      ensures s.sessions[sid].userId in s.channels[c].shares <==> s.sessions[sid].sharing && s.sessions[sid].channelId == c
    {
      assert s.userToSession[s.sessions[sid].userId] == sid;
    }
  }
}
