/**
 Who gets into a channel and who is put out of it: for one event exactly, and for whole runs by the
 last event that let the user in. A password keeps out whoever does not give it.
 */
module ServerAccess {
  import opened Wrappers
  import opened Bytes
  import opened RateLimiting
  import opened ServerModel
  import opened ServerInvariants
  import opened ServerRuns
  import opened ServerRooms

  ghost predicate IsMember(s: State, c: ChannelId, u: UserId) {
    c in s.channels && u in s.channels[c].members
  }

  /** The event is a message of a session of user u. */
  ghost predicate IsFrom(s: State, e: Event, u: UserId) {
    && !e.LoginEv? && !e.TimerEv? && !e.DatagramEv?
    && e.sid in s.sessions && s.sessions[e.sid].userId == u
  }

  /** The creator of channel `from` puts somebody else, who is in it, out. */
  ghost predicate Kicks(s: State, e: Event, from: ChannelId, u: UserId) {
    && e.KickEv? && e.c == from && e.target == u
    && from != GENERAL && IsMember(s, from, u)
    && e.sid in s.sessions && s.sessions[e.sid].userId != u
    && s.channels[from].createdBy == Some(s.sessions[e.sid].userId)
  }

  /** A message creates a channel under number c. */
  ghost predicate Founds(cfg: Config, s: State, e: Event, c: ChannelId) {
    && e.CreateEv? && e.sid in s.sessions && c == s.next.channel
    && MayOpen(cfg, RoomsOf(s), s.sessions[e.sid], Trim(e.name), e.now)
  }

  /** What brings u into channel c: its own accepted join, its own creation, or, for General, a kick. */
  ghost predicate Enters(cfg: Config, s: State, e: Event, c: ChannelId, u: UserId) {
    || (e.JoinEv? && IsFrom(s, e, u) && e.c == c && LetsIn(cfg, RoomsOf(s), s.sessions[e.sid], c, e.attempt, e.now))
    || (Founds(cfg, s, e, c) && IsFrom(s, e, u) && MayTry(s.sessions[e.sid], e.attempt, e.now))
    || (c == GENERAL && exists from :: Kicks(s, e, from, u))
  }

  /** What takes u out of channel c: moving elsewhere, a kick, the end of its connection, or the end of the channel. */
  ghost predicate Leaves(cfg: Config, s: State, e: Event, c: ChannelId, u: UserId) {
    || (e.JoinEv? && IsFrom(s, e, u) && e.c != c && LetsIn(cfg, RoomsOf(s), s.sessions[e.sid], e.c, e.attempt, e.now))
    || (Founds(cfg, s, e, s.next.channel) && IsFrom(s, e, u) && MayTry(s.sessions[e.sid], e.attempt, e.now))
    || Founds(cfg, s, e, c)
    || Kicks(s, e, c, u)
    || (e.DisconnectEv? && IsFrom(s, e, u))
  }

  // ---------------------------------------------------------------- one event

  lemma MemberIs(s: State, c: ChannelId, u: UserId)
    ensures IsMember(s, c, u) <==> c in RoomsOf(s) && u in RoomsOf(s)[c].members
  {
  }

  lemma OwnerIs(s: State, c: ChannelId, u: UserId)
    ensures IsOwner(RoomsOf(s), u, c) <==> c in s.channels && c != GENERAL && s.channels[c].createdBy == Some(u)
  {
  }

  /** Whether u is in channel c after an event, for every event there is. */
  lemma MembershipStepIff(cfg: Config, s: State, e: Event, c: ChannelId, u: UserId)
    requires Invariant(cfg, s) && DrawsHarmless(cfg, s, e)
    ensures IsMember(Step(cfg, s, e), c, u) <==>
            Enters(cfg, s, e, c, u) || (IsMember(s, c, u) && !Leaves(cfg, s, e, c, u))
  {
    hide Invariant, DrawsHarmless, Step, IsMember, Enters, Leaves, NextRooms, RoomsOf;
    StepRefinesRooms(cfg, s, e);
    MemberIs(Step(cfg, s, e), c, u);
    NextMember(cfg, s, e, c, u);
  }

  /** The same of the rules. */
  lemma NextMember(cfg: Config, s: State, e: Event, c: ChannelId, u: UserId)
    requires Invariant(cfg, s) && 0 in s.channels
    ensures (c in NextRooms(cfg, s, e) && u in NextRooms(cfg, s, e)[c].members) <==>
            Enters(cfg, s, e, c, u) || (IsMember(s, c, u) && !Leaves(cfg, s, e, c, u))
  {
    MemberIs(s, c, u);
    hide Invariant, RoomsOf, MoveTo, TakeOut, LetsIn, MayOpen, MayTry, Open, IsMember;
    assert 0 in RoomsOf(s) by { RoomKeys(s); }
    if e.TimerEv? {
      if e.timer in s.timers {
        NobodyTimedOut(cfg, s, e.timer, u);
      }
    } else if e.KickEv? && e.sid in s.sessions {
      KickedMember(cfg, s, e, c, u);
    } else if e.JoinEv? && e.sid in s.sessions {
      if LetsIn(cfg, RoomsOf(s), s.sessions[e.sid], e.c, e.attempt, e.now) {
        LetInExists(cfg, RoomsOf(s), s.sessions[e.sid], e.c, e.attempt, e.now);
        MovedMember(RoomsOf(s), s.sessions[e.sid].userId, e.c, c, u);
      }
    } else if e.CreateEv? && e.sid in s.sessions {
      OpenedMember(RoomsOf(s), s.sessions[e.sid], s.next.channel, Trim(e.name), e.attempt, e.now, c, u);
    } else if e.DisconnectEv? && e.sid in s.sessions {
      TakenMember(RoomsOf(s), s.sessions[e.sid].userId, c, u);
    } else if (e.PasswordEv? || e.InviteEv? || e.DeclineEv?) && e.sid in s.sessions {
      EditedMember(cfg, RoomsOf(s), s.sessions[e.sid], s.next.channel, e, c, u);
    }
  }

  lemma LetInExists(cfg: Config, rooms: Rooms, x: Session, c: ChannelId, attempt: Option<string>, now: real)
    requires LetsIn(cfg, rooms, x, c, attempt, now)
    ensures c in rooms
  {
  }

  lemma TakenMember(rooms: Rooms, v: UserId, c: ChannelId, u: UserId)
    ensures TakeOut(rooms, v).Keys == rooms.Keys
    ensures c in rooms ==> (u in TakeOut(rooms, v)[c].members <==> u in rooms[c].members && u != v)
  {
  }

  lemma MovedMember(rooms: Rooms, v: UserId, to: ChannelId, c: ChannelId, u: UserId)
    requires to in rooms
    ensures MoveTo(rooms, v, to).Keys == rooms.Keys
    ensures c in rooms ==>
              (u in MoveTo(rooms, v, to)[c].members <==> if u == v then c == to else u in rooms[c].members)
  {
  }

  lemma OpenedMember(rooms: Rooms, x: Session, n: ChannelId, name: string, password: Option<string>, now: real, c: ChannelId, u: UserId)
    ensures var rooms' := Open(rooms, x, n, name, password, now);
            c in rooms' && u in rooms'[c].members <==>
            if u == x.userId && MayTry(x, password, now) then c == n
            else c != n && c in rooms && u in rooms[c].members
  {
    hide MoveTo, MayTry;
    var added := rooms[n := Room(name, 0, false, Some(x.userId), password, {}, {})];
    MovedMember(added, x.userId, n, c, u);
  }

  lemma EditedMember(cfg: Config, rooms: Rooms, x: Session, next: ChannelId, e: Event, c: ChannelId, u: UserId)
    requires 0 in rooms && (e.PasswordEv? || e.InviteEv? || e.DeclineEv?)
    ensures var rooms' := AfterMessage(cfg, rooms, x, next, e);
            rooms'.Keys == rooms.Keys && (c in rooms ==> rooms'[c].members == rooms[c].members)
  {
  }

  lemma KickedMember(cfg: Config, s: State, e: Event, c: ChannelId, u: UserId)
    requires Invariant(cfg, s) && 0 in s.channels && e.KickEv? && e.sid in s.sessions
    ensures (c in NextRooms(cfg, s, e) && u in NextRooms(cfg, s, e)[c].members) <==>
            Enters(cfg, s, e, c, u) || (IsMember(s, c, u) && !Leaves(cfg, s, e, c, u))
  {
    var rooms, x := RoomsOf(s), s.sessions[e.sid];
    MemberIs(s, c, u);
    KicksAreOwners(s, e, x);
    KickPuts(cfg, s, e, c, u);
    hide Invariant, RoomsOf, MoveTo, Enters, Leaves, IsMember, IsOwner, Kicks;
    if IsOwner(rooms, x.userId, e.c) && e.target != x.userId && e.target in rooms[e.c].members {
      MovedMember(rooms, e.target, 0, c, u);
      MembersAreInOne(cfg, s, c, e.c, e.target);
      KicksOnly(s, e);
    }
  }

  lemma KickPuts(cfg: Config, s: State, e: Event, c: ChannelId, u: UserId)
    requires e.KickEv?
    ensures Enters(cfg, s, e, c, u) <==> c == 0 && exists from :: Kicks(s, e, from, u)
    ensures Leaves(cfg, s, e, c, u) <==> Kicks(s, e, c, u)
  {
    hide Kicks;
  }

  lemma KicksAreOwners(s: State, e: Event, x: Session)
    requires e.KickEv? && e.sid in s.sessions && x == s.sessions[e.sid]
    ensures Kicks(s, e, e.c, e.target) <==>
            IsOwner(RoomsOf(s), x.userId, e.c) && e.target != x.userId && e.target in RoomsOf(s)[e.c].members
    ensures forall from, u :: Kicks(s, e, from, u) ==> from == e.c && u == e.target
  {
    MemberIs(s, e.c, e.target);
    OwnerIs(s, e.c, x.userId);
    hide RoomsOf, IsMember, IsOwner;
  }

  lemma KicksOnly(s: State, e: Event)
    requires e.KickEv? && Kicks(s, e, e.c, e.target)
    ensures e.c != GENERAL && IsMember(s, e.c, e.target)
    ensures forall from, u :: Kicks(s, e, from, u) <==> from == e.c && u == e.target
  {
    hide IsMember;
  }

  lemma MembersAreInOne(cfg: Config, s: State, c: ChannelId, c': ChannelId, u: UserId)
    requires Invariant(cfg, s)
    ensures IsMember(s, c, u) && IsMember(s, c', u) ==> c == c'
  {
    if IsMember(s, c, u) && IsMember(s, c', u) {
      OnlyThere(cfg, s, c, u);
    }
  }

  lemma NobodyTimedOut(cfg: Config, s: State, t: TimerId, u: UserId)
    requires Invariant(cfg, s) && t in s.timers
    ensures s.timers[t] in s.channels && !IsMember(s, s.timers[t], u)
  {
    TimerFindsEmptyChannel(cfg, s, t);
  }

  // ---------------------------------------------------------------- passwords

  /** The user is not in channel c, not invited to it, and the channel has password p. */
  ghost predicate LockedOut(s: State, c: ChannelId, u: UserId, p: string) {
    && c in s.channels && s.channels[c].password == Some(p)
    && u !in s.channels[c].members && u !in s.channels[c].invited
  }

  /** A join message of u with the channel's password, which a persistent channel keeps as a hash. */
  ghost predicate GivesPassword(cfg: Config, s: State, e: Event, c: ChannelId, u: UserId, p: string)
    requires c in s.channels
  {
    && e.JoinEv? && e.c == c && e.sid in s.sessions && s.sessions[e.sid].userId == u
    && e.attempt.Some? && (if s.channels[c].persistent then cfg.hash(e.attempt.value) == p else e.attempt.value == p)
  }

  /**
   Whoever is locked out gets in exactly by giving the password in a join message, with an attempt left
   and room in the channel, or by founding a new channel under the same number.
   */
  lemma LockedOutGetsInIff(cfg: Config, s: State, e: Event, c: ChannelId, u: UserId, p: string)
    requires Invariant(cfg, s) && DrawsHarmless(cfg, s, e) && LockedOut(s, c, u, p)
    ensures IsMember(Step(cfg, s, e), c, u) <==>
            || (&& GivesPassword(cfg, s, e, c, u, p) && HasToken(s.sessions[e.sid].passwordRate, e.now)
                && (s.channels[c].maxUsers <= 0 || |s.channels[c].members| < s.channels[c].maxUsers))
            || (Founds(cfg, s, e, c) && IsFrom(s, e, u) && (e.attempt == None || HasToken(s.sessions[e.sid].passwordRate, e.now)))
  {
    GeneralIsUnlocked(cfg, s);
    EntersLockedIff(cfg, s, e, c, u, p);
    hide Invariant, DrawsHarmless, Step, HasToken, Founds, Enters, Leaves, GivesPassword;
    MembershipStepIff(cfg, s, e, c, u);
  }

  lemma EntersLockedIff(cfg: Config, s: State, e: Event, c: ChannelId, u: UserId, p: string)
    requires LockedOut(s, c, u, p) && c != GENERAL
    ensures Enters(cfg, s, e, c, u) <==>
            || (&& GivesPassword(cfg, s, e, c, u, p) && HasToken(s.sessions[e.sid].passwordRate, e.now)
                && (s.channels[c].maxUsers <= 0 || |s.channels[c].members| < s.channels[c].maxUsers))
            || (Founds(cfg, s, e, c) && IsFrom(s, e, u) && (e.attempt == None || HasToken(s.sessions[e.sid].passwordRate, e.now)))
  {
    hide Founds, HasToken, RoomsOf;
    RoomsAt(s, c);
  }

  lemma GeneralIsUnlocked(cfg: Config, s: State)
    requires Invariant(cfg, s)
    ensures GENERAL in s.channels && s.channels[GENERAL].password == None
  {
    assert ChannelOk(GENERAL, s.channels[GENERAL]);
  }

  /** A password set by the creator is the one that counts from then on. */
  lemma NewPasswordCounts(cfg: Config, s: State, sid: SessionId, c: ChannelId, p: string, e: Event, u: UserId)
    requires Invariant(cfg, s) && sid in s.sessions && c in s.channels && c != GENERAL
    requires s.channels[c].createdBy == Some(s.sessions[sid].userId)
    requires u !in s.channels[c].members && u !in s.channels[c].invited && e.JoinEv?
    ensures var s' := Step(cfg, s, PasswordEv(sid, c, Some(p)));
            && LockedOut(s', c, u, p)
            && (IsMember(Step(cfg, s', e), c, u) <==>
                && GivesPassword(cfg, s', e, c, u, p) && HasToken(s'.sessions[e.sid].passwordRate, e.now)
                && (s'.channels[c].maxUsers <= 0 || |s'.channels[c].members| < s'.channels[c].maxUsers))
  {
    var s' := Step(cfg, s, PasswordEv(sid, c, Some(p)));
    PasswordStep(cfg, s, sid, c, p);
    StepKeepsInvariantIff(cfg, s, PasswordEv(sid, c, Some(p)));
    hide Invariant, Step, HasToken, GivesPassword;
    LockedOutGetsInIff(cfg, s', e, c, u, p);
  }

  lemma PasswordStep(cfg: Config, s: State, sid: SessionId, c: ChannelId, p: string)
    requires sid in s.sessions && c in s.channels && c != GENERAL
    requires s.channels[c].createdBy == Some(s.sessions[sid].userId)
    ensures Step(cfg, s, PasswordEv(sid, c, Some(p)))
            == WithChannel(s, c, s.channels[c].(hasPassword := true, password := Some(p)))
  {
  }

  /** An invitation by the creator lets the invited user in without a password, as long as there is room. */
  lemma InvitationLetsIn(cfg: Config, s: State, sid: SessionId, c: ChannelId, guest: SessionId, now: real)
    requires Invariant(cfg, s) && sid in s.sessions && guest in s.sessions && c in s.channels && c != GENERAL
    requires s.channels[c].createdBy == Some(s.sessions[sid].userId)
    requires s.sessions[guest].userId !in s.channels[c].members && |s.channels[c].invited| < 50
    ensures var u := s.sessions[guest].userId;
            var s' := Step(cfg, s, InviteEv(sid, c, u));
            && c in s'.channels && u in s'.channels[c].invited
            && (IsMember(Step(cfg, s', JoinEv(guest, c, None, now)), c, u) <==>
                s.channels[c].maxUsers <= 0 || |s.channels[c].members| < s.channels[c].maxUsers)
  {
    var u := s.sessions[guest].userId;
    hide Invariant, Step, IsMember;
    InviteStep(cfg, s, sid, c, u);
    StepKeepsInvariantIff(cfg, s, InviteEv(sid, c, u));
    InvitedJoins(cfg, Step(cfg, s, InviteEv(sid, c, u)), guest, c, now);
  }

  lemma InvitedJoins(cfg: Config, s: State, guest: SessionId, c: ChannelId, now: real)
    requires Invariant(cfg, s) && guest in s.sessions && c in s.channels
    requires s.sessions[guest].userId in s.channels[c].invited && s.sessions[guest].userId !in s.channels[c].members
    ensures IsMember(Step(cfg, s, JoinEv(guest, c, None, now)), c, s.sessions[guest].userId) <==>
            s.channels[c].maxUsers <= 0 || |s.channels[c].members| < s.channels[c].maxUsers
  {
    InvitedEntersIff(cfg, s, guest, c, now);
    hide Invariant, Step, Enters, Leaves;
    MembershipStepIff(cfg, s, JoinEv(guest, c, None, now), c, s.sessions[guest].userId);
  }

  /** The invited user is told the names of the channel and of the client that invites. */
  lemma InvitedIsTold(cfg: Config, s: State, sid: SessionId, c: ChannelId)
    requires Invariant(cfg, s) && sid in s.sessions && c in s.channels
    ensures InvitationOf(s, c, s.sessions[sid].userId) == Invitation(s.channels[c].name, s.sessions[sid].username)
  {
    assert UsersOk(s.sessions, s.userToSession);
    hide Invariant;
  }

  lemma InviteStep(cfg: Config, s: State, sid: SessionId, c: ChannelId, u: UserId)
    requires sid in s.sessions && c in s.channels && c != GENERAL && s.channels[c].createdBy == Some(s.sessions[sid].userId)
    requires u !in s.channels[c].members && |s.channels[c].invited| < 50
    ensures Step(cfg, s, InviteEv(sid, c, u)) == WithChannel(s, c, s.channels[c].(invited := s.channels[c].invited + {u}))
  {
  }

  lemma InvitedEntersIff(cfg: Config, s: State, guest: SessionId, c: ChannelId, now: real)
    requires guest in s.sessions && c in s.channels && s.sessions[guest].userId in s.channels[c].invited
    ensures Enters(cfg, s, JoinEv(guest, c, None, now), c, s.sessions[guest].userId) <==>
            s.channels[c].maxUsers <= 0 || |s.channels[c].members| < s.channels[c].maxUsers
  {
    hide RoomsOf;
    RoomsAt(s, c);
  }

  ghost predicate IsInvited(s: State, c: ChannelId, u: UserId) {
    c in s.channels && u in s.channels[c].invited
  }

  /** The creator of channel c invites u, who is not in it, while fewer than 50 are invited. */
  ghost predicate Invites(s: State, e: Event, c: ChannelId, u: UserId) {
    && e.InviteEv? && e.c == c && e.target == u && e.sid in s.sessions && c in s.channels && c != GENERAL
    && s.channels[c].createdBy == Some(s.sessions[e.sid].userId)
    && u !in s.channels[c].members && |s.channels[c].invited| < 50
  }

  /** u declines, or uses the invitation up, or the channel goes. */
  ghost predicate EndsInvitation(cfg: Config, s: State, e: Event, c: ChannelId, u: UserId) {
    || (e.DeclineEv? && e.c == c && IsFrom(s, e, u))
    || Enters(cfg, s, e, c, u)
    || Founds(cfg, s, e, c)
    || (e.TimerEv? && e.timer in s.timers && s.timers[e.timer] == c)
  }

  /** Who is invited to channel c after an event, for every event there is. */
  lemma InvitedStepIff(cfg: Config, s: State, e: Event, c: ChannelId, u: UserId)
    requires Invariant(cfg, s) && DrawsHarmless(cfg, s, e)
    ensures IsInvited(Step(cfg, s, e), c, u) <==>
            Invites(s, e, c, u) || (IsInvited(s, c, u) && !EndsInvitation(cfg, s, e, c, u))
  {
    hide Invariant, DrawsHarmless, Step, Invites, EndsInvitation, NextRooms, RoomsOf;
    StepRefinesRooms(cfg, s, e);
    InvitedIs(Step(cfg, s, e), c, u);
    InvitedIs(s, c, u);
    NextInvited(cfg, s, e, c, u);
  }

  lemma InvitedIs(s: State, c: ChannelId, u: UserId)
    ensures IsInvited(s, c, u) <==> c in RoomsOf(s) && u in RoomsOf(s)[c].invited
  {
  }

  lemma NextInvited(cfg: Config, s: State, e: Event, c: ChannelId, u: UserId)
    requires Invariant(cfg, s) && 0 in s.channels
    ensures (c in NextRooms(cfg, s, e) && u in NextRooms(cfg, s, e)[c].invited) <==>
            Invites(s, e, c, u) || (IsInvited(s, c, u) && !EndsInvitation(cfg, s, e, c, u))
  {
    InvitedIs(s, c, u);
    RoomKeys(s);
    hide Invariant, RoomsOf, MoveTo, TakeOut, LetsIn, MayOpen, MayTry, Open;
    if c in s.channels {
      RoomsAt(s, c);
    }
    if e.KickEv? && e.sid in s.sessions {
      KickInvited(cfg, s, e, c, u);
    } else if e.JoinEv? && e.sid in s.sessions {
      if LetsIn(cfg, RoomsOf(s), s.sessions[e.sid], e.c, e.attempt, e.now) {
        LetInExists(cfg, RoomsOf(s), s.sessions[e.sid], e.c, e.attempt, e.now);
        MovedInvited(RoomsOf(s), s.sessions[e.sid].userId, e.c, c, u);
      }
    } else if e.CreateEv? && e.sid in s.sessions {
      OpenedInvited(RoomsOf(s), s.sessions[e.sid], s.next.channel, Trim(e.name), e.attempt, e.now, c, u);
    } else if e.DisconnectEv? && e.sid in s.sessions {
      TakenInvited(RoomsOf(s), s.sessions[e.sid].userId, c, u);
    }
  }

  lemma TakenInvited(rooms: Rooms, v: UserId, c: ChannelId, u: UserId)
    ensures TakeOut(rooms, v).Keys == rooms.Keys
    ensures c in rooms ==> TakeOut(rooms, v)[c].invited == rooms[c].invited
  {
  }

  lemma MovedInvited(rooms: Rooms, v: UserId, to: ChannelId, c: ChannelId, u: UserId)
    requires to in rooms
    ensures MoveTo(rooms, v, to).Keys == rooms.Keys
    ensures c in rooms ==> (u in MoveTo(rooms, v, to)[c].invited <==> u in rooms[c].invited && !(c == to && u == v))
  {
  }

  lemma OpenedInvited(rooms: Rooms, x: Session, n: ChannelId, name: string, password: Option<string>, now: real, c: ChannelId, u: UserId)
    ensures var rooms' := Open(rooms, x, n, name, password, now);
            c in rooms' && u in rooms'[c].invited <==> c != n && c in rooms && u in rooms[c].invited
  {
    hide MoveTo, MayTry;
    var added := rooms[n := Room(name, 0, false, Some(x.userId), password, {}, {})];
    MovedInvited(added, x.userId, n, c, u);
  }

  lemma KickInvited(cfg: Config, s: State, e: Event, c: ChannelId, u: UserId)
    requires Invariant(cfg, s) && 0 in s.channels && e.KickEv? && e.sid in s.sessions
    ensures (c in NextRooms(cfg, s, e) && u in NextRooms(cfg, s, e)[c].invited) <==> (c in s.channels && u in s.channels[c].invited)
    ensures c in s.channels && u in s.channels[c].invited ==> !Enters(cfg, s, e, c, u)
  {
    GeneralInvitesNobody(cfg, s);
    KickInvites(cfg, s, e, c, u);
    hide Invariant, NextRooms, IsMember;
  }

  lemma KickInvites(cfg: Config, s: State, e: Event, c: ChannelId, u: UserId)
    requires 0 in s.channels && s.channels[0].invited == {} && e.KickEv? && e.sid in s.sessions
    ensures (c in NextRooms(cfg, s, e) && u in NextRooms(cfg, s, e)[c].invited) <==> (c in s.channels && u in s.channels[c].invited)
  {
    InvitedIs(s, c, u);
    RoomKeys(s);
    RoomsAt(s, 0);
    hide RoomsOf, MoveTo, IsOwner;
    if 0 in RoomsOf(s) {
      MovedInvited(RoomsOf(s), e.target, 0, c, u);
    }
  }

  lemma GeneralInvitesNobody(cfg: Config, s: State)
    requires Invariant(cfg, s)
    ensures GENERAL in s.channels && s.channels[GENERAL].invited == {}
  {
    assert ChannelOk(GENERAL, s.channels[GENERAL]);
  }

  // ---------------------------------------------------------------- runs

  /** None of the events takes u out of channel c. */
  ghost predicate Stays(cfg: Config, s: State, es: seq<Event>, c: ChannelId, u: UserId)
    decreases |es|
  {
    es == [] || (!Leaves(cfg, s, es[0], c, u) && Stays(cfg, Step(cfg, s, es[0]), es[1..], c, u))
  }

  /** One of the events lets u into channel c, and none of those after it takes u out again. */
  ghost predicate WasLetIn(cfg: Config, s: State, es: seq<Event>, c: ChannelId, u: UserId)
    decreases |es|
  {
    es != [] &&
    var s1 := Step(cfg, s, es[0]);
    || (Enters(cfg, s, es[0], c, u) && Stays(cfg, s1, es[1..], c, u))
    || WasLetIn(cfg, s1, es[1..], c, u)
  }

  /** Whoever is in a channel after a run was let in and stayed, or was there before and stayed; and conversely. */
  lemma {:induction false} MembershipInRunIff(cfg: Config, s: State, es: seq<Event>, c: ChannelId, u: UserId)
    requires Invariant(cfg, s) && AllDrawsHarmless(cfg, s, es)
    ensures IsMember(Run(cfg, s, es), c, u) <==>
            WasLetIn(cfg, s, es, c, u) || (IsMember(s, c, u) && Stays(cfg, s, es, c, u))
    decreases |es|
  {
    hide Invariant, DrawsHarmless, Step, IsMember, Enters, Leaves;
    if es != [] {
      var s1 := Step(cfg, s, es[0]);
      StepKeepsInvariantIff(cfg, s, es[0]);
      MembershipStepIff(cfg, s, es[0], c, u);
      MembershipInRunIff(cfg, s1, es[1..], c, u);
    }
  }

  /** The event that let u in: everything before it is a run by itself. */
  lemma {:induction false} LetInBySome(cfg: Config, s: State, es: seq<Event>, c: ChannelId, u: UserId) returns (k: nat)
    requires WasLetIn(cfg, s, es, c, u)
    ensures k < |es| && Enters(cfg, Run(cfg, s, es[..k]), es[k], c, u)
    ensures Stays(cfg, Run(cfg, s, es[..k + 1]), es[k + 1..], c, u)
    decreases |es|
  {
    hide Step, Enters, Leaves;
    var s1 := Step(cfg, s, es[0]);
    if WasLetIn(cfg, s1, es[1..], c, u) {
      var j := LetInBySome(cfg, s1, es[1..], c, u);
      k := j + 1;
      assert es[..k][1..] == es[1..][..j] && es[..k + 1][1..] == es[1..][..j + 1] && es[k + 1..] == es[1..][j + 1..];
    } else {
      k := 0;
      assert es[..0] == [] && es[..1][1..] == [];
    }
  }

  /**
   From start-up on, whatever happens: a member of a channel with a password, unless invited into it or
   its founder, gave that password, in a join message while the channel had it, and has not left since.
   */
  lemma MembersGaveThePassword(cfg: Config, entries: seq<ChannelEntry>, es: seq<Event>, c: ChannelId, u: UserId) returns (k: nat)
    requires |entries| < U32 - 1 && AllDrawsHarmless(cfg, Initial(entries), es)
    requires c != GENERAL && IsMember(Run(cfg, Initial(entries), es), c, u)
    ensures k < |es| && Stays(cfg, Run(cfg, Initial(entries), es[..k + 1]), es[k + 1..], c, u)
    ensures var s, e := Run(cfg, Initial(entries), es[..k]), es[k];
            || (Founds(cfg, s, e, c) && IsFrom(s, e, u))
            || (c in s.channels && e.JoinEv? && e.c == c && IsFrom(s, e, u)
                && (|| s.channels[c].password == None
                    || u in s.channels[c].invited
                    || GivesPassword(cfg, s, e, c, u, s.channels[c].password.value)))
  {
    InitialIsInvariant(cfg, entries);
    assert !IsMember(Initial(entries), c, u);
    hide Invariant, Step, Run, IsMember, Stays, WasLetIn, AllDrawsHarmless;
    MembershipInRunIff(cfg, Initial(entries), es, c, u);
    k := LetInBySome(cfg, Initial(entries), es, c, u);
    EnteringAsks(cfg, Run(cfg, Initial(entries), es[..k]), es[k], c, u);
  }

  lemma EnteringAsks(cfg: Config, s: State, e: Event, c: ChannelId, u: UserId)
    requires c != GENERAL && Enters(cfg, s, e, c, u)
    ensures || (Founds(cfg, s, e, c) && IsFrom(s, e, u))
            || (c in s.channels && e.JoinEv? && e.c == c && IsFrom(s, e, u)
                && (|| s.channels[c].password == None
                    || u in s.channels[c].invited
                    || GivesPassword(cfg, s, e, c, u, s.channels[c].password.value)))
  {
    hide Founds, MayTry, HasSpace;
    if c in s.channels {
      RoomsAt(s, c);
    }
  }
}
