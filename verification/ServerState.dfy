/**
 The server's shared state as the server keeps it: maps updated in place, one method for each state
 operation and each message handler, in the order in which the server performs the updates. Every
 method is proved to do what ServerModel.dfy says.
 */
module ServerState {
  import opened Wrappers
  import opened Bytes
  import RateLimiting
  import opened M = ServerModel

  /** Clearing one more viewer. */
  lemma ClearOneMore(s: State, done: set<UserId>, v: UserId)
    ensures v !in s.userToSession ==> ClearWatching(s, done + {v}) == ClearWatching(s, done)
    ensures v in s.userToSession ==>
              var x := s.userToSession[v];
              ClearWatching(s, done + {v}) ==
              if x in s.sessions then WithSession(ClearWatching(s, done), x, ClearWatching(s, done).sessions[x].(watching := None))
              else ClearWatching(s, done)
  {
    if v in s.userToSession {
      assert SessionsOf(s, done + {v}) == SessionsOf(s, done) + {s.userToSession[v]};
      UnwatchOneMore(s.sessions, SessionsOf(s, done), s.userToSession[v]);
    } else {
      assert SessionsOf(s, done + {v}) == SessionsOf(s, done);
    }
    hide Unwatched;
  }

  lemma UnwatchOneMore(sessions: map<SessionId, Session>, gone: set<SessionId>, x: SessionId)
    ensures x !in sessions ==> Unwatched(sessions, gone + {x}) == Unwatched(sessions, gone)
    ensures x in sessions ==>
              && x in Unwatched(sessions, gone)
              && (Unwatched(sessions, gone + {x})
                  == Unwatched(sessions, gone)[x := Unwatched(sessions, gone)[x].(watching := None)])
  {
  }

  lemma ClearNothing(s: State)
    ensures ClearWatching(s, {}) == s
  {
  }

  /** Using up an invitation first changes neither where a user is put nor who is told. */
  lemma PutInUsesUpInvite(s: State, s': State, uid: UserId, sid: SessionId, c: ChannelId)
    requires c in s.channels
    requires s' == WithChannel(s, c, s.channels[c].(invited := s.channels[c].invited - {uid}))
    ensures uid !in s'.channels[c].invited
    ensures PutIn(s', uid, sid, c) == PutIn(s, uid, sid, c)
    ensures SessionsOf(s', s'.channels[c].members) == SessionsOf(s, s.channels[c].members)
  {
    var ch := s.channels[c];
    assert ch.invited - {uid} - {uid} == ch.invited - {uid};
    assert Admit(s'.channels[c], uid) == Admit(ch, uid);
    assert s'.channels[c := Admit(ch, uid)] == s.channels[c := Admit(ch, uid)];
  }

  class Server {
    const cfg: Config
    var sessions: map<SessionId, Session>
    var userToSession: map<UserId, SessionId>
    var nameToSession: map<string, SessionId>
    var addrToSession: map<Addr, SessionId>
    var channels: map<ChannelId, Channel>
    var timers: map<TimerId, ChannelId>
    var next: Counters

    ghost function St(): State
      reads this
    {
      State(sessions, userToSession, nameToSession, addrToSession, channels, timers, next)
    }

    constructor (cfg: Config, entries: seq<ChannelEntry>)
      requires |entries| < U32 - 1
      ensures this.cfg == cfg && St() == Initial(entries)
    {
      this.cfg := cfg;
      sessions, userToSession, nameToSession, addrToSession := map[], map[], map[], map[];
      timers := map[];
      next := Counters(1, 1, |entries| + 1, 0);
      channels := map[GENERAL := GeneralChannel()];
      new;
      for i := 0 to |entries|
        invariant channels == InitialChannels(entries[..i])
        invariant sessions == map[] && userToSession == map[] && nameToSession == map[] && addrToSession == map[]
        invariant timers == map[] && next == Counters(1, 1, |entries| + 1, 0)
      {
        assert entries[..i + 1][..i] == entries[..i];
        channels := channels[i + 1 := PersistentChannel(entries[i])];
      }
      assert entries[..|entries|] == entries;
    }

    // ---------------------------------------------------------------- state operations

    method JoinChannel(uid: UserId, sid: SessionId, c: ChannelId, attempt: Option<string>) returns (r: Result<set<SessionId>, Refusal>)
      modifies this
      ensures St() == Join(cfg, old(St()), uid, sid, c, attempt)
      ensures r == match ValidateJoin(cfg, old(St()), c, attempt, uid)
                   case Some(e) => Err(e)
                   case None => Ok(SessionsOf(old(St()), old(channels)[c].members))
    {
      if c !in channels {
        return Err(NoSuchChannel);
      }
      var ch := channels[c];
      var wasInvited := uid in ch.invited;
      channels := channels[c := ch.(invited := ch.invited - {uid})];
      if !wasInvited {
        if ch.password.Some? {
          var matches := attempt.Some? && (if ch.persistent then cfg.hash(attempt.value) else attempt.value) == ch.password.value;
          if !matches {
            return Err(IncorrectPassword);
          }
        }
      }
      if ch.maxUsers > 0 && |ch.members| >= ch.maxUsers {
        return Err(ChannelFull);
      }
      PutInUsesUpInvite(old(St()), St(), uid, sid, c);
      hide PutIn;
      var others := Seat(uid, sid, c);
      return Ok(others);
    }

    /** The second half of JoinChannel, once nothing speaks against letting the user in. */
    method Seat(uid: UserId, sid: SessionId, c: ChannelId) returns (others: set<SessionId>)
      requires c in channels && uid !in channels[c].invited
      modifies this
      ensures St() == PutIn(old(St()), uid, sid, c)
      ensures others == SessionsOf(old(St()), old(channels)[c].members)
    {
      var ch := channels[c];
      TakeDeleteTimer(c);
      others := set u | u in ch.members && u in userToSession :: userToSession[u];
      assert others == SessionsOf(old(St()), ch.members);
      hide SessionsOf;
      channels := channels[c := channels[c].(members := ch.members + {uid})];
      channels := channels[c := channels[c].(userCount := |channels[c].members|)];
      if sid in sessions {
        sessions := sessions[sid := sessions[sid].(channelId := c)];
      }
      assert ch.invited - {uid} == ch.invited;
      assert channels == old(channels)[c := Admit(ch, uid)];
    }

    /** Stops the channel's delete timer, if one is running. */
    method TakeDeleteTimer(c: ChannelId)
      requires c in channels
      modifies this
      ensures St() == WithChannel(old(St()), c, old(channels)[c].(deleteTimer := None))
                      .(timers := old(timers) - TimerSet(old(channels)[c].deleteTimer))
    {
      var ch := channels[c];
      if ch.deleteTimer.Some? {
        timers := timers - {ch.deleteTimer.value};
        channels := channels[c := ch.(deleteTimer := None)];
      } else {
        assert channels == channels[c := ch.(deleteTimer := None)];
      }
    }

    method LeaveCurrentChannel(uid: UserId, sid: SessionId) returns (r: Option<(ChannelId, set<SessionId>, nat)>)
      modifies this
      ensures St() == Leave(old(St()), uid, sid)
      ensures r.Some? <==> CanLeave(old(St()), uid, sid)
      ensures r.Some? ==>
                && r.value.0 == old(sessions)[sid].channelId
                && r.value.1 == SessionsOf(St(), channels[r.value.0].members)
                && r.value.2 == |channels[r.value.0].members|
    {
      if sid !in sessions {
        return None;
      }
      var c := sessions[sid].channelId;
      if c !in channels {
        return None;
      }
      var ch := channels[c];
      if uid !in ch.members {
        return None;
      }
      channels := channels[c := ch.(members := ch.members - {uid})];
      channels := channels[c := channels[c].(userCount := |channels[c].members|)];
      var remaining := set u | u in channels[c].members && u in userToSession :: userToSession[u];
      return Some((c, remaining, |channels[c].members|));
    }

    method RemoveUserSession(sid: SessionId) returns (removed: Option<Session>)
      modifies this
      ensures St() == RemoveSession(cfg, old(St()), sid)
      ensures removed == if sid in old(sessions) then Some(old(sessions)[sid]) else None
    {
      if sid !in sessions {
        return None;
      }
      var x := sessions[sid];
      sessions := sessions - {sid};
      userToSession := userToSession - {x.userId};
      nameToSession := nameToSession - {cfg.lower(x.username)};
      if x.udpAddr.Some? {
        addrToSession := addrToSession - {x.udpAddr.value};
      }
      if x.channelId in channels {
        DropMember(x.channelId, x.userId);
      }
      return Some(x);
    }

    /** The last step of RemoveUserSession: the user is taken off its channel's member list. */
    method DropMember(c: ChannelId, uid: UserId)
      requires c in channels
      modifies this
      ensures St() == WithChannel(old(St()), c, Members(old(channels)[c], old(channels)[c].members - {uid}))
    {
      var ch := channels[c];
      channels := channels[c := ch.(members := ch.members - {uid})];
      channels := channels[c := channels[c].(userCount := |channels[c].members|)];
    }

    method CreateChannel(name: string, password: Option<string>, uid: UserId) returns (r: Result<ChannelId, Refusal>)
      modifies this
      ensures St() == Create(cfg, old(St()), name, password, uid)
      ensures r == match CreateRefusal(cfg, old(St()), name) case Some(e) => Err(e) case None => Ok(old(next).channel)
    {
      var userChannels := set c | c in channels && !channels[c].persistent && c != GENERAL;
      assert userChannels == UserChannels(St());
      assert (exists c :: c in channels && channels[c].name == name) <==> NameTaken(St(), name);
      if |userChannels| >= cfg.maxChannels {
        return Err(TooManyChannels);
      }
      if exists c :: c in channels && channels[c].name == name {
        return Err(DuplicateName);
      }
      var c := next.channel;
      next := next.(channel := Next(next.channel));
      channels := channels[c := Channel(name, 0, 0, password.Some?, {}, password, None, Some(uid), {}, map[], false)];
      return Ok(c);
    }

    method DeleteChannel(c: ChannelId) returns (r: Option<Refusal>)
      modifies this
      ensures St() == Delete(old(St()), c) && r == DeleteRefusal(old(St()), c)
    {
      if c == GENERAL {
        return Some(Refusal.General);
      }
      if c !in channels {
        return Some(NoSuchChannel);
      }
      if channels[c].persistent {
        return Some(Persistent);
      }
      if channels[c].members != {} {
        return Some(NotEmpty);
      }
      var ch := channels[c];
      channels := channels - {c};
      if ch.deleteTimer.Some? {
        timers := timers - {ch.deleteTimer.value};
      }
      return None;
    }

    method SetChannelPassword(c: ChannelId, uid: UserId, password: Option<string>) returns (r: Option<Refusal>)
      modifies this
      ensures St() == SetPassword(old(St()), c, uid, password) && r == SetPasswordRefusal(old(St()), c, uid)
    {
      if c == GENERAL {
        return Some(Refusal.General);
      }
      if c !in channels {
        return Some(NoSuchChannel);
      }
      if channels[c].createdBy != Some(uid) {
        return Some(NotCreator);
      }
      channels := channels[c := channels[c].(hasPassword := password.Some?)];
      channels := channels[c := channels[c].(password := password)];
      return None;
    }

    method KickUser(c: ChannelId, requester: UserId, target: UserId) returns (r: Result<(SessionId, nat), Refusal>)
      modifies this
      ensures St() == Kick(old(St()), c, requester, target)
      ensures KickRefusal(old(St()), c, requester, target).Some? ==> r == Err(KickRefusal(old(St()), c, requester, target).value)
      ensures KickRefusal(old(St()), c, requester, target).None? ==>
                r.Ok? && r.value.0 == old(userToSession)[target] && r.value.1 == |channels[c].members|
    {
      if c == GENERAL {
        return Err(Refusal.General);
      }
      if requester == target {
        return Err(Self);
      }
      if c !in channels {
        return Err(NoSuchChannel);
      }
      if channels[c].createdBy != Some(requester) {
        return Err(NotCreator);
      }
      if target !in channels[c].members {
        return Err(NotMember);
      }
      channels := channels[c := channels[c].(members := channels[c].members - {target})];
      channels := channels[c := channels[c].(userCount := |channels[c].members|)];
      if target !in userToSession {
        return Err(NoSession);
      }
      return Ok((userToSession[target], |channels[c].members|));
    }

    method SetChannelDeleteTimer(c: ChannelId, timer: TimerId)
      modifies this
      ensures St() == SetDeleteTimer(old(St()), c, timer)
    {
      if c in channels {
        if channels[c].deleteTimer.Some? {
          timers := timers - {channels[c].deleteTimer.value};
        }
        channels := channels[c := channels[c].(deleteTimer := Some(timer))];
      }
    }

    method AddInvite(c: ChannelId, requester: UserId, target: UserId) returns (r: Result<Invitation, Refusal>)
      modifies this
      ensures St() == Invite(old(St()), c, requester, target)
      ensures r == match InviteRefusal(old(St()), c, requester, target)
                   case Some(e) => Err(e)
                   case None => Ok(InvitationOf(old(St()), c, requester))
    {
      if c == GENERAL {
        return Err(Refusal.General);
      }
      if c !in channels {
        return Err(NoSuchChannel);
      }
      if channels[c].createdBy != Some(requester) {
        return Err(NotCreator);
      }
      if target in channels[c].members {
        return Err(AlreadyMember);
      }
      if |channels[c].invited| >= MAX_INVITES {
        return Err(InvitesFull);
      }
      var name := channels[c].name;
      channels := channels[c := channels[c].(invited := channels[c].invited + {target})];
      var inviter := "Unknown";
      if requester in userToSession {
        if userToSession[requester] in sessions {
          inviter := sessions[userToSession[requester]].username;
        }
      }
      return Ok(Invitation(name, inviter));
    }

    method WithdrawInvite(c: ChannelId, uid: UserId)
      modifies this
      ensures St() == RemoveInvite(old(St()), c, uid)
    {
      if c in channels {
        channels := channels[c := channels[c].(invited := channels[c].invited - {uid})];
      }
    }

    // ---------------------------------------------------------------- screen shares

    method StartScreenShare(uid: UserId, sid: SessionId, c: ChannelId, resolution: int) returns (r: Result<set<SessionId>, Refusal>)
      modifies this
      ensures St() == StartShare(old(St()), uid, sid, c, resolution)
      ensures r == match StartShareRefusal(old(St()), sid, c)
                   case Some(e) => Err(e)
                   case None => Ok(SessionsOf(old(St()), old(channels)[c].members - {uid}))
    {
      if c == GENERAL {
        return Err(Refusal.General);
      }
      if sid !in sessions {
        return Err(NoSession);
      }
      if sessions[sid].sharing {
        return Err(AlreadySharing);
      }
      sessions := sessions[sid := sessions[sid].(sharing := true)];
      if c !in channels {
        return Err(NoSuchChannel);
      }
      var ch := channels[c];
      channels := channels[c := ch.(shares := ch.shares[uid := Share(sid, {}, resolution)])];
      var others := set u | u in ch.members - {uid} && u in userToSession :: userToSession[u];
      return Ok(others);
    }

    /** Nobody in `viewers` watches anything any more; the sessions that were told so. */
    method ClearViewers(viewers: set<UserId>) returns (told: set<SessionId>)
      modifies this`sessions
      ensures St() == ClearWatching(old(St()), viewers) && told == SessionsOf(old(St()), viewers)
    {
      ghost var s := St();
      var todo := viewers;
      told := {};
      ClearNothing(s);
      while todo != {}
        invariant todo <= viewers
        invariant St() == ClearWatching(s, viewers - todo)
        invariant told == SessionsOf(s, viewers - todo)
        decreases todo
      {
        var v :| v in todo;
        ClearOneMore(s, viewers - todo, v);
        assert viewers - (todo - {v}) == viewers - todo + {v};
        todo := todo - {v};
        if v in userToSession {
          var x := userToSession[v];
          if x in sessions {
            sessions := sessions[x := sessions[x].(watching := None)];
          }
          told := told + {x};
        }
      }
      assert viewers - todo == viewers;
    }

    method StopScreenShare(uid: UserId, sid: SessionId, c: ChannelId) returns (r: Result<(set<SessionId>, set<SessionId>), Refusal>)
      modifies this
      ensures St() == StopShare(old(St()), uid, sid, c)
      ensures StopShareRefusal(old(St()), uid, c).Some? ==> r == Err(StopShareRefusal(old(St()), uid, c).value)
      ensures StopShareRefusal(old(St()), uid, c).None? ==>
                && r.Ok? && r.value.0 == SessionsOf(old(St()), old(channels)[c].shares[uid].viewers)
                && r.value.1 == SessionsOf(old(St()), old(channels)[c].members - {uid})
    {
      if sid in sessions {
        sessions := sessions[sid := sessions[sid].(sharing := false)];
      }
      if c !in channels {
        return Err(NoSuchChannel);
      }
      var ch := channels[c];
      if uid !in ch.shares {
        return Err(NotSharing);
      }
      var share := ch.shares[uid];
      channels := channels[c := ch.(shares := ch.shares - {uid})];
      var told := ClearViewers(share.viewers);
      var others := set u | u in ch.members - {uid} && u in userToSession :: userToSession[u];
      return Ok((told, others));
    }

    /** On success: the share's audience, and that of the share that was left for it. */
    method WatchScreenShare(viewer: UserId, sid: SessionId, sharer: UserId, c: ChannelId)
      returns (r: Result<Audience, Refusal>, left: Option<Audience>)
      modifies this
      ensures St() == Watch(old(St()), viewer, sid, sharer, c)
      ensures r == match WatchRefusal(old(St()), sid, sharer, c)
                   case Some(e) => Err(e)
                   case None => Ok(AudienceWith(old(St()), viewer, sharer, c).value)
      ensures left == PreviousAudience(old(St()), viewer, sid, sharer, c)
    {
      left := None;
      if sid !in sessions {
        return Err(NoSession), None;
      }
      var previous := sessions[sid].watching;
      if previous.Some? {
        if previous.value != sharer {
          left := RemoveFromAudience(viewer, previous.value, c);
        }
      }
      sessions := sessions[sid := sessions[sid].(watching := Some(sharer))];
      if c !in channels {
        return Err(NoSuchChannel), left;
      }
      var ch := channels[c];
      if sharer !in ch.shares {
        return Err(NotSharing), left;
      }
      var share := ch.shares[sharer];
      var viewers := share.viewers + {viewer};
      channels := channels[c := ch.(shares := ch.shares[sharer := share.(viewers := viewers)])];
      return Ok(Audience(sharer, share.sharerSession, |share.viewers|, |viewers|)), left;
    }

    /** Takes a viewer off a share, if there is such a share. */
    method RemoveFromAudience(viewer: UserId, sharer: UserId, c: ChannelId) returns (r: Option<Audience>)
      modifies this
      ensures St() == RemoveViewer(old(St()), viewer, sharer, c)
      ensures r == AudienceWithout(old(St()), viewer, sharer, c)
    {
      if c !in channels {
        return None;
      }
      var ch := channels[c];
      if sharer !in ch.shares {
        return None;
      }
      var share := ch.shares[sharer];
      var viewers := share.viewers - {viewer};
      channels := channels[c := ch.(shares := ch.shares[sharer := share.(viewers := viewers)])];
      return Some(Audience(sharer, share.sharerSession, |share.viewers|, |viewers|));
    }

    method StopWatchingScreenShare(viewer: UserId, sid: SessionId, c: ChannelId) returns (r: Result<Audience, Refusal>)
      modifies this
      ensures St() == StopWatching(old(St()), viewer, sid, c)
      ensures r == match StopWatchingRefusal(old(St()), sid, c)
                   case Some(e) => Err(e)
                   case None => Ok(AudienceWithout(old(St()), viewer, old(sessions)[sid].watching.value, c).value)
    {
      if sid !in sessions {
        return Err(NoSession);
      }
      if sessions[sid].watching.None? {
        return Err(NotWatching);
      }
      var sharer := sessions[sid].watching.value;
      sessions := sessions[sid := sessions[sid].(watching := None)];
      if c !in channels {
        return Err(NoSuchChannel);
      }
      if sharer !in channels[c].shares {
        return Err(NotSharing);
      }
      var audience := RemoveFromAudience(viewer, sharer, c);
      return Ok(audience.value);
    }

    method CleanupScreenShares(uid: UserId, sid: SessionId, c: ChannelId) returns (report: Cleanup)
      modifies this
      ensures St() == CleanupShares(old(St()), uid, sid, c)
      ensures report == CleanupReport(old(St()), uid, sid, c)
    {
      report := NO_CLEANUP;
      if c !in channels {
        return;
      }
      if uid in channels[c].shares {
        var share := channels[c].shares[uid];
        channels := channels[c := channels[c].(shares := channels[c].shares - {uid})];
        var told := ClearViewers(share.viewers);
        report := report.(stopped := Some(uid), viewers := told);
      }
      if sid in sessions {
        sessions := sessions[sid := sessions[sid].(sharing := false)];
      }
      assert St() == Unmark(EndShare(old(St()), uid, c), sid);
      hide EndShare;
      var watching := if sid in sessions then sessions[sid].watching else None;
      if watching.Some? {
        var left := RemoveFromAudience(uid, watching.value, c);
        report := report.(left := left);
        if sid in sessions {
          sessions := sessions[sid := sessions[sid].(watching := None)];
        }
      }
      var others := channels[c].members - {uid};
      report := report.(members := set u | u in others && u in userToSession :: userToSession[u]);
    }

    // ---------------------------------------------------------------- message handlers

    /** Messages to clients are not modelled; what they would report is returned where it matters. */
    method HandleJoinChannel(uid: UserId, sid: SessionId, c: ChannelId, attempt: Option<string>, now: real) returns (outcome: JoinOutcome)
      modifies this
      ensures St() == HandleJoin(cfg, old(St()), uid, sid, c, attempt, now)
      ensures outcome == JoinOutcomeOf(cfg, old(St()), uid, sid, c, attempt, now)
    {
      ghost var s := St();
      if attempt.Some? {
        var allowed := false;
        if sid in sessions {
          var (bucket, ok) := RateLimiting.TryConsume(sessions[sid].passwordRate, now);
          sessions := sessions[sid := sessions[sid].(passwordRate := bucket)];
          allowed := ok;
        }
        if !allowed {
          return RateLimited;
        }
      }
      ghost var s0 := St();
      assert s0 == ChargePassword(s, sid, attempt, now) && PasswordAllowed(s, sid, attempt, now);
      outcome := JoinAdmitted(uid, sid, c, attempt);
    }

    /** HandleJoinChannel once the rate limiter has allowed the attempt. */
    method JoinAdmitted(uid: UserId, sid: SessionId, c: ChannelId, attempt: Option<string>) returns (outcome: JoinOutcome)
      modifies this
      ensures var s0 := old(St());
              var s1 := Depart(s0, uid, sid, c);
              match ValidateJoin(cfg, s0, c, attempt, uid)
              case Some(e) => outcome == Refused(e) && St() == s0
              case None =>
                if ValidateJoin(cfg, s1, c, attempt, uid).None?
                then outcome == Joined && St() == Join(cfg, s1, uid, sid, c, attempt)
                else outcome == Fallback && St() == Join(cfg, Join(cfg, s1, uid, sid, c, attempt), uid, sid, GENERAL, None)
    {
      hide ValidateJoin, CleanupShares, LeaveAndTime, Join;
      var refusal := ValidateJoin(cfg, State(sessions, userToSession, nameToSession, addrToSession, channels, timers, next), c, attempt, uid);
      if refusal.Some? {
        return Refused(refusal.value);
      }
      var oldChannel := if sid in sessions then sessions[sid].channelId else GENERAL;
      if oldChannel != c && oldChannel != GENERAL {
        var report := CleanupScreenShares(uid, sid, oldChannel);
      }
      LeaveAndStartTimer(uid, sid);
      var joined := JoinChannel(uid, sid, c, attempt);
      if joined.Err? {
        var again := JoinChannel(uid, sid, GENERAL, None);
        return Fallback;
      }
      return Joined;
    }

    method LeaveAndStartTimer(uid: UserId, sid: SessionId)
      modifies this
      ensures St() == LeaveAndTime(old(St()), uid, sid)
    {
      var left := LeaveCurrentChannel(uid, sid);
      if left.Some? {
        if left.value.2 == 0 && left.value.0 != GENERAL {
          StartChannelDeleteTimer(left.value.0);
        }
      }
    }

    /** Starting a timer draws a new one; storing its handle aborts the one stored before. */
    method StartChannelDeleteTimer(c: ChannelId)
      modifies this
      ensures St() == StartDeleteTimer(old(St()), c)
    {
      if c in channels {
        if channels[c].persistent {
          return;
        }
      }
      var timer := next.timer;
      next := next.(timer := next.timer + 1);
      timers := timers[timer := c];
      SetChannelDeleteTimer(c, timer);
    }

    /** The body of the spawned task, once its time is up. */
    method TimerFires(t: TimerId)
      modifies this
      ensures St() == FireTimer(old(St()), t)
    {
      if t in timers {
        var c := timers[t];
        timers := timers - {t};
        var refusal := DeleteChannel(c);
      }
    }

    method HandleCreateChannel(uid: UserId, sid: SessionId, name: string, password: Option<string>, now: real)
      modifies this
      ensures St() == HandleCreate(cfg, old(St()), uid, sid, Trim(name), password, now)
    {
      hide HandleJoin, CreateRefusal, Utf8Len, JoinOutcomeOf, Trim;
      var trimmed := Trim(name);
      if trimmed == "" || Utf8Len(trimmed) > cfg.maxNameLen {
        return;
      }
      if exists i :: 0 <= i < |trimmed| && IsControl(trimmed[i]) {
        return;
      }
      var created := CreateChannel(trimmed, password, uid);
      if created.Ok? {
        var outcome := HandleJoinChannel(uid, sid, created.value, password, now);
      }
    }

    /** The dispatch of a creation message: the rate limiter comes before the handler. */
    method DispatchCreate(uid: UserId, sid: SessionId, name: string, password: Option<string>, now: real)
      modifies this
      ensures St() == CreateMessage(cfg, old(St()), uid, sid, name, password, now)
    {
      hide HandleCreate, RateLimiting.TryConsume, Trim;
      var allowed := false;
      if sid in sessions {
        var (bucket, ok) := RateLimiting.TryConsume(sessions[sid].createRate, now);
        sessions := sessions[sid := sessions[sid].(createRate := bucket)];
        allowed := ok;
      }
      if allowed {
        HandleCreateChannel(uid, sid, name, password, now);
      }
    }

    method HandleKickUser(requester: UserId, c: ChannelId, target: UserId)
      modifies this
      ensures St() == HandleKick(cfg, old(St()), requester, c, target)
    {
      hide Join, StartDeleteTimer, KickRefusal, ValidateJoin;
      var kicked := KickUser(c, requester, target);
      ghost var s1 := St();
      if kicked.Ok? {
        KickedChannelExists(cfg, old(St()), c, requester, target);
        var joined := JoinChannel(target, kicked.value.0, GENERAL, None);
        if kicked.value.1 == 0 {
          StartChannelDeleteTimer(c);
        }
      }
    }

    method HandleStartScreenShare(uid: UserId, sid: SessionId, resolution: int) returns (r: Result<set<SessionId>, Refusal>)
      modifies this
      ensures St() == StartShare(old(St()), uid, sid, ChannelOf(old(St()), sid), resolution)
    {
      var c := if sid in sessions then sessions[sid].channelId else GENERAL;
      r := StartScreenShare(uid, sid, c, resolution);
    }

    method HandleStopScreenShare(uid: UserId, sid: SessionId)
      modifies this
      ensures St() == StopShare(old(St()), uid, sid, ChannelOf(old(St()), sid))
    {
      var c := if sid in sessions then sessions[sid].channelId else GENERAL;
      var r := StopScreenShare(uid, sid, c);
    }

    method HandleWatchScreenShare(uid: UserId, sid: SessionId, sharer: UserId)
      modifies this
      ensures St() == Watch(old(St()), uid, sid, sharer, ChannelOf(old(St()), sid))
    {
      var c := if sid in sessions then sessions[sid].channelId else GENERAL;
      var r, left := WatchScreenShare(uid, sid, sharer, c);
    }

    method HandleStopWatching(uid: UserId, sid: SessionId)
      modifies this
      ensures St() == StopWatching(old(St()), uid, sid, ChannelOf(old(St()), sid))
    {
      var c := if sid in sessions then sessions[sid].channelId else GENERAL;
      var r := StopWatchingScreenShare(uid, sid, c);
    }

    method CleanupSession(uid: UserId, sid: SessionId)
      modifies this
      ensures St() == Disconnect(cfg, old(St()), uid, sid)
    {
      hide CleanupShares, LeaveAndTime, RemoveSession;
      var c := if sid in sessions then sessions[sid].channelId else GENERAL;
      if c != GENERAL {
        var report := CleanupScreenShares(uid, sid, c);
      }
      LeaveAndStartTimer(uid, sid);
      var removed := RemoveUserSession(sid);
    }

    /** Registration of an accepted login: reserve the name, then enter the session in both indexes. */
    method Authenticate(name: string, token: int, ip: int, now: real) returns (r: Option<SessionId>)
      modifies this
      ensures St() == Login(cfg, old(St()), name, token, ip, now)
      ensures r.Some? <==> |old(sessions)| < cfg.maxUsers && cfg.lower(name) !in old(nameToSession)
      ensures r.Some? ==> r.value == old(next).session && r.value in sessions
    {
      hide Next, RateLimiting.NewBucket;
      if |sessions| >= cfg.maxUsers {
        return None;
      }
      var uid := next.user;
      next := next.(user := Next(next.user));
      var sid := next.session;
      next := next.(session := Next(next.session));
      if cfg.lower(name) in nameToSession {
        return None;
      }
      nameToSession := nameToSession[cfg.lower(name) := sid];
      var session := Session(uid, name, GENERAL, false, None, None, token, ip,
                             RateLimiting.NewBucket(3.0, 1.0, now), RateLimiting.NewBucket(1.0, 0.2, now));
      sessions := sessions[sid := session];
      userToSession := userToSession[uid := sid];
      return Some(sid);
    }

    // ---------------------------------------------------------------- UDP

    /** Finds the session of a datagram, learning its source address from the first accepted one. */
    method ResolveSession(src: Addr, claimed: SessionId, token: int) returns (r: Option<SessionId>)
      modifies this
      ensures St() == Resolve(cfg, old(St()), src, claimed, token)
      ensures r == Resolved(cfg, old(St()), src, claimed, token)
    {
      if src in addrToSession {
        var sid := addrToSession[src];
        var valid := sid in sessions && sessions[sid].udpToken == token;
        if valid {
          return Some(sid);
        }
        addrToSession := addrToSession - {src};
        return None;
      }
      if claimed !in sessions {
        return None;
      }
      var session := sessions[claimed];
      if session.udpToken != token {
        return None;
      }
      if session.peerIp != src.ip {
        return None;
      }
      if session.udpAddr.Some? {
        if session.udpAddr.value != src {
          return None;
        }
      }
      var needsInsert := session.udpAddr.None?;
      if needsInsert {
        var cacheCap := if 2 * cfg.maxUsers > 64 then 2 * cfg.maxUsers else 64;
        if |addrToSession| >= cacheCap {
          return None;
        }
        sessions := sessions[claimed := session.(udpAddr := Some(src))];
      }
      if needsInsert {
        addrToSession := addrToSession[src := claimed];
      }
      return Some(claimed);
    }

    /** The addresses a voice packet of session sid is forwarded to. */
    method ForwardVoice(sid: SessionId) returns (targets: set<Addr>)
      ensures targets == VoiceTargets(St(), sid)
    {
      targets := {};
      if sid !in sessions {
        return;
      }
      var c := sessions[sid].channelId;
      if c == GENERAL {
        return;
      }
      if c !in channels {
        return;
      }
      var todo := channels[c].members;
      while todo != {}
        invariant todo <= channels[c].members
        invariant targets == VoiceTargetsAmong(St(), sid, channels[c].members - todo)
        decreases todo
      {
        var u :| u in todo;
        assert channels[c].members - (todo - {u}) == channels[c].members - todo + {u};
        VoiceOneMore(St(), sid, channels[c].members - todo, u);
        todo := todo - {u};
        if u !in userToSession {
          continue;
        }
        var member := userToSession[u];
        if member == sid {
          continue;
        }
        if member !in sessions {
          continue;
        }
        if sessions[member].udpAddr.Some? {
          targets := targets + {sessions[member].udpAddr.value};
        }
      }
      assert channels[c].members - todo == channels[c].members;
    }

    /** The addresses a video packet of user `sharer` in channel c is forwarded to. */
    method GetScreenShareViewerAddrs(sharer: UserId, c: ChannelId) returns (targets: set<Addr>)
      ensures targets == ViewerAddrs(St(), sharer, c)
    {
      if c !in channels {
        return {};
      }
      if sharer !in channels[c].shares {
        return {};
      }
      var viewers := channels[c].shares[sharer].viewers;
      targets := set v | v in viewers && v in userToSession && userToSession[v] in sessions
                         && sessions[userToSession[v]].udpAddr.Some? :: sessions[userToSession[v]].udpAddr.value;
    }

    /** The addresses a video packet of session sid is forwarded to. */
    method ForwardVideo(sid: SessionId) returns (targets: set<Addr>)
      ensures targets == VideoTargets(St(), sid)
    {
      if sid !in sessions {
        return {};
      }
      var sharer, c := sessions[sid].userId, sessions[sid].channelId;
      if c == GENERAL {
        return {};
      }
      targets := GetScreenShareViewerAddrs(sharer, c);
    }

    // ---------------------------------------------------------------- dispatch

    /** One event handled to its end, as the connection and timer tasks hand them over. */
    method Handle(e: Event)
      modifies this
      ensures St() == Step(cfg, old(St()), e)
    {
      hide HandleJoin, HandleCreate, HandleKick, Disconnect, Login, FireTimer, Resolve;
      hide SetPassword, Invite, RemoveInvite, StartShare, StopShare, Watch, StopWatching;
      match e
      case LoginEv(name, token, ip, now) => var r := Authenticate(name, token, ip, now);
      case TimerEv(t) => TimerFires(t);
      case DatagramEv(src, sid, token) => var r := ResolveSession(src, sid, token);
      case _ =>
        if e.sid in sessions {
          HandleClientMessage(sessions[e.sid].userId, e);
        }
    }

    method HandleClientMessage(uid: UserId, e: Event)
      requires !e.LoginEv? && !e.TimerEv? && !e.DatagramEv?
      modifies this
      ensures St() == HandleMessage(cfg, old(St()), uid, e)
    {
      hide HandleJoin, HandleCreate, HandleKick, Disconnect;
      hide SetPassword, Invite, RemoveInvite, StartShare, StopShare, Watch, StopWatching;
      match e
      case JoinEv(sid, c, attempt, now) => var outcome := HandleJoinChannel(uid, sid, c, attempt, now);
      case CreateEv(sid, name, attempt, now) => DispatchCreate(uid, sid, name, attempt, now);
      case PasswordEv(_, c, attempt) => var r := SetChannelPassword(c, uid, attempt);
      case KickEv(_, c, target) => HandleKickUser(uid, c, target);
      case InviteEv(_, c, target) => var r := AddInvite(c, uid, target);
      case DeclineEv(_, c) => WithdrawInvite(c, uid);
      case StartShareEv(sid, resolution) => var r := HandleStartScreenShare(uid, sid, resolution);
      case StopShareEv(sid) => HandleStopScreenShare(uid, sid);
      case WatchEv(sid, sharer) => HandleWatchScreenShare(uid, sid, sharer);
      case StopWatchingEv(sid) => HandleStopWatching(uid, sid);
      case DisconnectEv(sid) => CleanupSession(uid, sid);
    }

    /** A whole run. */
    method Serve(es: seq<Event>)
      modifies this
      ensures St() == Run(cfg, old(St()), es)
    {
      hide Step;
      for i := 0 to |es|
        invariant Run(cfg, St(), es[i..]) == Run(cfg, old(St()), es)
      {
        assert es[i..][0] == es[i] && es[i..][1..] == es[i + 1..];
        Handle(es[i]);
      }
    }
  }

  lemma KickedChannelExists(cfg: Config, s: State, c: ChannelId, requester: UserId, target: UserId)
    requires KickRefusal(s, c, requester, target).None?
    ensures c in s.channels && target in s.userToSession
  {
  }

  /** One more member of the sender's channel. */
  lemma VoiceOneMore(s: State, sid: SessionId, done: set<UserId>, u: UserId)
    ensures VoiceTargetsAmong(s, sid, done + {u}) == VoiceTargetsAmong(s, sid, done)
            + (if u in s.userToSession && s.userToSession[u] != sid && s.userToSession[u] in s.sessions
                  && s.sessions[s.userToSession[u]].udpAddr.Some?
               then {s.sessions[s.userToSession[u]].udpAddr.value} else {})
  {
  }
}
