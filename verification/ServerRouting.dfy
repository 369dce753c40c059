/** Who hears and sees whom: the forwarding of media in every reachable state. */
module ServerRouting {
  import opened Wrappers
  import opened ServerModel
  import opened ServerInvariants
  import opened ServerRuns
  import opened ServerShares

  /**
   Voice reaches exactly the other sessions in the sender's channel that have a bound address: nobody
   outside the channel, nobody left out, and nobody at all in General.
   */
  lemma VoiceStaysInChannel(cfg: Config, s: State, sid: SessionId)
    requires Invariant(cfg, s) && sid in s.sessions
    ensures VoiceTargets(s, sid) ==
            set x | x in s.sessions && x != sid && s.sessions[x].channelId == s.sessions[sid].channelId
                    && s.sessions[x].channelId != GENERAL && s.sessions[x].udpAddr.Some? :: s.sessions[x].udpAddr.value
  {
    hide NamesOk, Numbered, TimersOk, AddressesOk, ChannelsOk;
    var c := s.sessions[sid].channelId;
    var expected := set x | x in s.sessions && x != sid && s.sessions[x].channelId == c
                            && s.sessions[x].channelId != GENERAL && s.sessions[x].udpAddr.Some? :: s.sessions[x].udpAddr.value;
    forall a | a in expected
      ensures a in VoiceTargets(s, sid)
    {
      var x :| x in s.sessions && x != sid && s.sessions[x].channelId == c && s.sessions[x].udpAddr == Some(a);
      assert s.sessions[x].userId in s.channels[c].members && s.userToSession[s.sessions[x].userId] == x;
    }
    forall a | a in VoiceTargets(s, sid)
      ensures a in expected
    {
      var u :| u in s.channels[c].members && u in s.userToSession && s.userToSession[u] != sid
               && s.userToSession[u] in s.sessions && s.sessions[s.userToSession[u]].udpAddr == Some(a);
      assert s.sessions[s.userToSession[u]].channelId == c;
    }
  }

  /**
   Video of a session reaches only sessions in the same channel that watch its user, and a session
   that is not sharing reaches nobody.
   */
  lemma VideoReachesViewersOnly(cfg: Config, s: State, sid: SessionId, a: Addr)
    requires Invariant(cfg, s) && ShareInvariant(s) && a in VideoTargets(s, sid)
    ensures sid in s.sessions && s.sessions[sid].sharing && s.sessions[sid].channelId != GENERAL
    ensures exists x :: x in s.sessions && s.sessions[x].udpAddr == Some(a)
                     && s.sessions[x].channelId == s.sessions[sid].channelId
                     && s.sessions[x].watching == Some(s.sessions[sid].userId)
  {
    hide NamesOk, Numbered, TimersOk, AddressesOk, ChannelsOk, MembersOk;
    var c, sharer := s.sessions[sid].channelId, s.sessions[sid].userId;
    var v :| v in s.channels[c].shares[sharer].viewers && v in s.userToSession && s.userToSession[v] in s.sessions
             && s.sessions[s.userToSession[v]].udpAddr == Some(a);
    assert Views(s.channels, c, sharer, v);
    assert s.userToSession[sharer] == sid;
    var x := s.userToSession[v];
    assert s.sessions[x].channelId == c && s.sessions[x].watching == Some(sharer);
  }

  /** Nobody is left out either: video reaches exactly the bound sessions of the listed viewers. */
  lemma VideoReachesEveryViewer(cfg: Config, s: State, sid: SessionId)
    requires Invariant(cfg, s) && sid in s.sessions && s.sessions[sid].channelId != GENERAL
    ensures VideoTargets(s, sid) ==
            set x | x in s.sessions && s.sessions[x].udpAddr.Some?
                    && Views(s.channels, s.sessions[sid].channelId, s.sessions[sid].userId, s.sessions[x].userId)
                  :: s.sessions[x].udpAddr.value
  {
    hide NamesOk, Numbered, TimersOk, AddressesOk, ChannelsOk, MembersOk;
    var c, sharer := s.sessions[sid].channelId, s.sessions[sid].userId;
    var expected := set x | x in s.sessions && s.sessions[x].udpAddr.Some?
                            && Views(s.channels, c, sharer, s.sessions[x].userId) :: s.sessions[x].udpAddr.value;
    forall a | a in expected
      ensures a in VideoTargets(s, sid)
    {
      var x :| x in s.sessions && s.sessions[x].udpAddr == Some(a) && Views(s.channels, c, sharer, s.sessions[x].userId);
      assert s.userToSession[s.sessions[x].userId] == x;
    }
    forall a | a in VideoTargets(s, sid)
      ensures a in expected
    {
      var v :| v in s.channels[c].shares[sharer].viewers && v in s.userToSession && s.userToSession[v] in s.sessions
               && s.sessions[s.userToSession[v]].udpAddr == Some(a);
      assert s.sessions[s.userToSession[v]].userId == v && Views(s.channels, c, sharer, v);
    }
  }

  /** A client's first good datagram is enough: from then on it is sent the voice of everybody in its channel. */
  lemma FirstDatagramIsEnough(cfg: Config, s: State, src: Addr, sid: SessionId, from: SessionId)
    requires Invariant(cfg, s) && src !in s.addrToSession && sid in s.sessions && from in s.sessions && from != sid
    requires s.sessions[sid].peerIp == src.ip && s.sessions[sid].udpAddr == None
    requires |s.addrToSession| < 64 || |s.addrToSession| < 2 * cfg.maxUsers
    requires s.sessions[from].channelId == s.sessions[sid].channelId != GENERAL
    ensures src in VoiceTargets(Step(cfg, s, DatagramEv(src, sid, s.sessions[sid].udpToken)), from)
  {
    var token := s.sessions[sid].udpToken;
    var s' := Resolve(cfg, s, src, sid, token);
    hide Invariant, Resolve, VoiceTargets, Step;
    DatagramStep(cfg, s, src, sid, token);
    ResolveKeepsInvariant(cfg, s, src, sid, token);
    LearnedAddress(cfg, s, src, sid, token);
    BoundIsHeard(cfg, s', from, sid, src);
  }

  lemma DatagramStep(cfg: Config, s: State, src: Addr, sid: SessionId, token: int)
    ensures Step(cfg, s, DatagramEv(src, sid, token)) == Resolve(cfg, s, src, sid, token)
  {
    hide Resolve;
  }

  lemma LearnedAddress(cfg: Config, s: State, src: Addr, sid: SessionId, token: int)
    requires Invariant(cfg, s) && src !in s.addrToSession && MayLearn(cfg, s, src, sid, token)
    ensures Resolve(cfg, s, src, sid, token).sessions == s.sessions[sid := s.sessions[sid].(udpAddr := Some(src))]
  {
    hide Invariant, Resolve, Resolved;
    DatagramAcceptedIff(cfg, s, src, sid, token);
  }

  lemma BoundIsHeard(cfg: Config, s: State, from: SessionId, to: SessionId, a: Addr)
    requires Invariant(cfg, s) && from in s.sessions && to in s.sessions && to != from
    requires s.sessions[from].channelId == s.sessions[to].channelId != GENERAL && s.sessions[to].udpAddr == Some(a)
    ensures a in VoiceTargets(s, from)
  {
    hide Invariant, VoiceTargets;
    VoiceStaysInChannel(cfg, s, from);
    assert to in s.sessions && s.sessions[to].udpAddr.Some?;
  }

  // ---------------------------------------------------------------- after a kick

  /** The sessions differ at most in the channels they are in. */
  ghost predicate OnlyMoved(a: Sessions, b: Sessions) {
    a.Keys == b.Keys && forall sid :: sid in a ==> b[sid].userId == a[sid].userId && b[sid].udpAddr == a[sid].udpAddr
  }

  lemma MovedIsOnlyMoved(sessions: Sessions, sid: SessionId)
    requires sid in sessions
    ensures OnlyMoved(sessions, sessions[sid := sessions[sid].(channelId := GENERAL)])
  {
  }

  lemma SameViewerAddrs(s: State, s': State, sharer: UserId, c: ChannelId)
    requires OnlyMoved(s.sessions, s'.sessions) && s'.userToSession == s.userToSession && s'.channels.Keys == s.channels.Keys
    requires c in s.channels ==> s'.channels[c].shares == s.channels[c].shares
    ensures ViewerAddrs(s', sharer, c) == ViewerAddrs(s, sharer, c)
  {
    forall a
      ensures a in ViewerAddrs(s', sharer, c) <==> a in ViewerAddrs(s, sharer, c)
    {
    }
  }

  /** A kick ends what its target sends, and changes nothing about who is sent whose video. */
  lemma KickKeepsVideo(cfg: Config, s: State, requester: UserId, c: ChannelId, target: UserId, sid: SessionId)
    requires Invariant(cfg, s) && KickRefusal(s, c, requester, target).None?
    ensures target in s.userToSession
    ensures VideoTargets(HandleKick(cfg, s, requester, c, target), sid)
            == if sid == s.userToSession[target] then {} else VideoTargets(s, sid)
  {
    TargetHasSession(s, c, requester, target);
    hide Invariant, HandleKick, VideoTargets, KickRefusal;
    KickMoves(cfg, s, requester, c, target);
    MovedVideo(s, HandleKick(cfg, s, requester, c, target), s.userToSession[target], sid);
  }

  /** Moving a session to General ends its video, and its alone. */
  lemma MovedVideo(s: State, s': State, moved: SessionId, sid: SessionId)
    requires moved in s.sessions && s'.sessions == s.sessions[moved := s.sessions[moved].(channelId := GENERAL)]
    requires s'.userToSession == s.userToSession && s'.channels.Keys == s.channels.Keys
    requires forall x :: x in s.channels ==> s'.channels[x].shares == s.channels[x].shares
    ensures VideoTargets(s', sid) == if sid == moved then {} else VideoTargets(s, sid)
  {
    hide ViewerAddrs, OnlyMoved;
    MovedIsOnlyMoved(s.sessions, moved);
    if sid in s.sessions {
      SameViewerAddrs(s, s', s.sessions[sid].userId, s.sessions[sid].channelId);
    }
  }

  lemma TargetHasSession(s: State, c: ChannelId, requester: UserId, target: UserId)
    requires KickRefusal(s, c, requester, target).None?
    ensures target in s.userToSession
  {
  }

  /**
   So a kicked viewer is still sent the share that it watched: its session is in General, and its
   address still gets the video of the channel it was thrown out of.
   */
  lemma KickedViewerIsStillSent(cfg: Config, s: State, requester: UserId, c: ChannelId, target: UserId, sid: SessionId,
                                from: SessionId, a: Addr)
    requires Invariant(cfg, s) && KickRefusal(s, c, requester, target).None? && Owns(s, target, sid)
    requires s.sessions[sid].udpAddr == Some(a) && from != sid && a in VideoTargets(s, from)
    ensures var s' := HandleKick(cfg, s, requester, c, target);
            && a in VideoTargets(s', from) && ChannelOf(s', from) != GENERAL
            && ChannelOf(s', sid) == GENERAL && sid in s'.sessions && s'.sessions[sid].udpAddr == Some(a)
  {
    SessionOf(cfg, s, target, sid);
    hide Invariant, HandleKick, ViewerAddrs, KickRefusal;
    KickKeepsVideo(cfg, s, requester, c, target, from);
    KickMoves(cfg, s, requester, c, target);
  }

  lemma SessionOf(cfg: Config, s: State, uid: UserId, sid: SessionId)
    requires Invariant(cfg, s) && Owns(s, uid, sid)
    ensures uid in s.userToSession && s.userToSession[uid] == sid
  {
  }
}
