/**
 Empty channels do not linger: when a user-created channel is empty, its delete timer is running. One
 thing breaks this, and exactly that: creating a channel with a password while the password rate
 limiter refuses the creator's own join.
 */
module ServerTimers {
  import opened Wrappers
  import opened Bytes
  import opened RateLimiting
  import opened ServerModel
  import opened ServerInvariants
  import opened ServerNumbers
  import opened ServerRuns

  /** Every empty user-created channel outside `except` has its delete timer running. */
  ghost predicate Timed(channels: Channels, except: set<ChannelId>) {
    forall c :: c in channels && c !in except && c != GENERAL && !channels[c].persistent && channels[c].members == {} ==>
      channels[c].deleteTimer.Some?
  }

  lemma AlikeTimed(a: Channels, b: Channels, except: set<ChannelId>)
    requires Timed(a, except) && ChannelsAlike(a, b)
    ensures Timed(b, except)
  {
  }

  lemma EditTimed(channels: Channels, c: ChannelId, ch: Channel)
    requires Timed(channels, {}) && c in channels
    requires ch.members == channels[c].members && ch.deleteTimer == channels[c].deleteTimer && ch.persistent == channels[c].persistent
    ensures Timed(channels[c := ch], {})
  {
  }

  lemma TimerTimed(s: State, c: ChannelId)
    requires Timed(s.channels, {c})
    ensures Timed(StartDeleteTimer(s, c).channels, {})
  {
  }

  lemma LeaveAndTimeTimed(s: State, uid: UserId, sid: SessionId, except: set<ChannelId>)
    requires Timed(s.channels, except)
    ensures Timed(LeaveAndTime(s, uid, sid).channels, except)
  {
    if CanLeave(s, uid, sid) {
      var c := s.sessions[sid].channelId;
      var s1 := Leave(s, uid, sid);
      if s1.channels[c].members == {} && c != GENERAL {
        TimerKeepsSeats(s1, c);
      }
    }
  }

  lemma JoinTimed(cfg: Config, s: State, uid: UserId, sid: SessionId, c: ChannelId, attempt: Option<string>)
    requires Timed(s.channels, {c}) && ValidateJoin(cfg, s, c, attempt, uid).None?
    ensures Timed(Join(cfg, s, uid, sid, c, attempt).channels, {})
  {
    var ch := Admit(s.channels[c], uid);
    assert uid in ch.members;
  }

  /** A join leaves no channel without a timer, not even one it was told to overlook. */
  lemma JoinAfterDepartTimed(cfg: Config, s: State, uid: UserId, sid: SessionId, c: ChannelId, attempt: Option<string>)
    requires Invariant(cfg, s) && Owns(s, uid, sid) && ValidateJoin(cfg, s, c, attempt, uid).None?
    requires Timed(s.channels, {c})
    ensures Timed(Join(cfg, Depart(s, uid, sid, c), uid, sid, c, attempt).channels, {})
  {
    hide Core, Seated, Join, LeaveAndTime, CleanupShares;
    var from := ChannelOf(s, sid);
    var s1 := if from != c && from != GENERAL then CleanupShares(s, uid, sid, from) else s;
    CleanupMovesNobody(s, uid, sid, from);
    AlikeTimed(s.channels, s1.channels, {c});
    LeaveAndTimeTimed(s1, uid, sid, {c});
    StillOpenAfterDepart(cfg, s, uid, sid, c, attempt);
    JoinTimed(cfg, Depart(s, uid, sid, c), uid, sid, c, attempt);
  }

  lemma HandleJoinTimed(cfg: Config, s: State, uid: UserId, sid: SessionId, c: ChannelId, attempt: Option<string>, now: real)
    requires Invariant(cfg, s) && Owns(s, uid, sid) && Timed(s.channels, {})
    ensures Timed(HandleJoin(cfg, s, uid, sid, c, attempt, now).channels, {})
  {
    hide Invariant, HandleJoin, JoinOutcomeOf, Join, Depart, ValidateJoin;
    var s0 := ChargePassword(s, sid, attempt, now);
    JoinNeverFallsBack(cfg, s, uid, sid, c, attempt, now);
    HandleJoinIs(cfg, s, uid, sid, c, attempt, now);
    ChargeKeepsInvariant(cfg, s, uid, sid, attempt, now);
    if JoinOutcomeOf(cfg, s, uid, sid, c, attempt, now) == Joined {
      JoinAfterDepartTimed(cfg, s0, uid, sid, c, attempt);
    }
  }

  /**
   Creating a channel leaves every empty channel with a running timer if and only if it was refused,
   or the rate limiter let the creator in. Otherwise the new channel stays behind, empty and without a timer.
   */
  lemma CreateTimedIffJoined(cfg: Config, s: State, uid: UserId, sid: SessionId, name: string, password: Option<string>, now: real)
    requires Invariant(cfg, s) && Owns(s, uid, sid) && Timed(s.channels, {})
    requires ChannelCreated(cfg, s, name) && s.next.channel in s.channels ==> Replaceable(s, uid, sid, s.next.channel, password, now)
    ensures Timed(HandleCreate(cfg, s, uid, sid, name, password, now).channels, {}) <==>
            (!NameAccepted(cfg, name) || CreateRefusal(cfg, s, name).Some? || PasswordAllowed(s, sid, password, now))
  {
    hide Invariant, Timed, HandleJoin, NameAccepted, CreateRefusal, TryConsume;
    if NameAccepted(cfg, name) && CreateRefusal(cfg, s, name).None? {
      if s.next.channel !in s.channels {
        CreateKeepsInvariant(cfg, s, name, password, uid);
        NewChannelTimedIff(cfg, s, uid, sid, name, password, now);
      } else if s.channels[s.next.channel].members == {} {
        ReplacedEmpty(cfg, s, name, password, uid);
        NewChannelTimedIff(cfg, s, uid, sid, name, password, now);
      } else {
        OwnerPutBackTimed(cfg, s, name, password, uid, sid, now);
      }
    }
  }

  lemma NewChannelTimedIff(cfg: Config, s: State, uid: UserId, sid: SessionId, name: string, password: Option<string>, now: real)
    requires Owns(s, uid, sid) && Timed(s.channels, {}) && CreateRefusal(cfg, s, name).None?
    requires Invariant(cfg, s) && Invariant(cfg, Created(s, name, password, uid))
    ensures Timed(AfterCreation(cfg, s, name, password, uid, sid, now).channels, {}) <==> PasswordAllowed(s, sid, password, now)
  {
    hide Core, Seated, HandleJoin, JoinOutcomeOf, ValidateJoin, CreateRefusal, TryConsume;
    var c, s1 := s.next.channel, Created(s, name, password, uid);
    DrawnIsNotGeneral(cfg, s1, name, password, uid);
    JoinIsAllOrNothing(cfg, s1, uid, sid, c, password, now);
    NewChannelAdmits(cfg, s, name, password, uid);
    if PasswordAllowed(s, sid, password, now) {
      JoinedTimed(cfg, s1, uid, sid, c, password, now);
    } else {
      var s2 := ChargePassword(s1, sid, password, now);
      assert s2.channels[c] == NewChannel(name, password, uid);
      assert !Timed(s2.channels, {});
    }
  }

  /** General is nobody's creation. */
  lemma DrawnIsNotGeneral(cfg: Config, s: State, name: string, password: Option<string>, uid: UserId)
    requires Invariant(cfg, s)
    ensures forall c :: c in s.channels && s.channels[c] == NewChannel(name, password, uid) ==> c != GENERAL
  {
  }

  lemma OwnerPutBackTimed(cfg: Config, s: State, name: string, password: Option<string>, uid: UserId, sid: SessionId, now: real)
    requires Invariant(cfg, s) && Owns(s, uid, sid) && CreateRefusal(cfg, s, name).None? && Timed(s.channels, {})
    requires s.next.channel in s.channels && s.next.channel != GENERAL && s.channels[s.next.channel].members == {uid}
    requires PasswordAllowed(s, sid, password, now)
    ensures Timed(AfterCreation(cfg, s, name, password, uid, sid, now).channels, {})
  {
    hide Invariant, CreateRefusal, AfterCreation, TryConsume, PasswordAllowed;
    OwnerIsPutBack(cfg, s, name, password, uid, sid, now);
    var c := s.next.channel;
    assert AfterCreation(cfg, s, name, password, uid, sid, now).channels == s.channels[c := Admit(NewChannel(name, password, uid), uid)];
  }

  lemma JoinedTimed(cfg: Config, s: State, uid: UserId, sid: SessionId, c: ChannelId, attempt: Option<string>, now: real)
    requires Invariant(cfg, s) && Owns(s, uid, sid) && Timed(s.channels, {c})
    requires JoinOutcomeOf(cfg, s, uid, sid, c, attempt, now) == Joined
    ensures Timed(HandleJoin(cfg, s, uid, sid, c, attempt, now).channels, {})
  {
    hide Invariant, HandleJoin, JoinOutcomeOf, Join, Depart, ValidateJoin;
    HandleJoinIs(cfg, s, uid, sid, c, attempt, now);
    ChargeKeepsInvariant(cfg, s, uid, sid, attempt, now);
    JoinAfterDepartTimed(cfg, ChargePassword(s, sid, attempt, now), uid, sid, c, attempt);
  }

  lemma HandleKickTimed(cfg: Config, s: State, requester: UserId, c: ChannelId, target: UserId)
    requires Invariant(cfg, s) && Timed(s.channels, {})
    ensures Timed(HandleKick(cfg, s, requester, c, target).channels, {})
  {
    hide Core, Seated;
    KickNeverHalfDone(cfg, s, c, requester, target);
    if KickRefusal(s, c, requester, target).None? {
      var s1, sid := Kick(s, c, requester, target), s.userToSession[target];
      var s2 := Join(cfg, s1, target, sid, GENERAL, None);
      KickKeepsCore(cfg, s, c, requester, target);
      JoinIs(cfg, s1, target, sid, GENERAL, None);
      assert Timed(s2.channels, {c});
      TimerTimed(s2, c);
    }
  }

  lemma DisconnectTimed(cfg: Config, s: State, uid: UserId, sid: SessionId)
    requires Invariant(cfg, s) && Owns(s, uid, sid) && Timed(s.channels, {})
    ensures Timed(Disconnect(cfg, s, uid, sid).channels, {})
  {
    hide CleanupShares, LeaveAndTime, RemoveSession;
    var c := ChannelOf(s, sid);
    var s1 := if c != GENERAL then CleanupShares(s, uid, sid, c) else s;
    CleanupMovesNobody(s, uid, sid, c);
    AlikeTimed(s.channels, s1.channels, {});
    SameSeatsKeepsCore(cfg, s, s1);
    LeaveAndTimeKeepsCore(cfg, s1, uid, sid);
    LeaveAndTimeTimed(s1, uid, sid, {});
    LeaveAndTimeIsLocal(s1, uid, sid);
    RemoveSessionKeepsCore(cfg, LeaveAndTime(s1, uid, sid), sid);
  }

  /** The rate limiter refuses the creator of a new channel. */
  predicate StrandsChannel(cfg: Config, s: State, e: Event) {
    Creates(cfg, s, e) && !PasswordAllowed(s, e.sid, e.attempt, e.now)
  }

  lemma CreateMessageTimed(cfg: Config, s: State, uid: UserId, e: Event)
    requires Invariant(cfg, s) && DrawsHarmless(cfg, s, e) && Timed(s.channels, {}) && e.CreateEv? && Owns(s, uid, e.sid)
    ensures Timed(CreateMessage(cfg, s, uid, e.sid, e.name, e.attempt, e.now).channels, {}) <==> !StrandsChannel(cfg, s, e)
  {
    hide Invariant, Timed, HandleCreate, NameAccepted, CreateRefusal, PasswordAllowed, CreateAllowed, ChargeCreate, Replaceable;
    var s0, name := ChargeCreate(s, e.sid, e.now), Trim(e.name);
    ChargeCreateKeepsInvariant(cfg, s, uid, e.sid, e.now);
    ChargeCreateIs(cfg, s, uid, e.sid, name, e.attempt, e.now);
    ChargeCreateLetsIn(s, e.sid, e.attempt, e.now);
    if CreateAllowed(s, e.sid, e.now) {
      CreateTimedIffJoined(cfg, s0, uid, e.sid, name, e.attempt, e.now);
    }
  }

  /** The two rate limiters are independent. */
  lemma ChargeCreateLetsIn(s: State, sid: SessionId, password: Option<string>, now: real)
    ensures PasswordAllowed(ChargeCreate(s, sid, now), sid, password, now) == PasswordAllowed(s, sid, password, now)
  {
    hide TryConsume;
  }

  lemma MessageTimed(cfg: Config, s: State, uid: UserId, e: Event)
    requires Invariant(cfg, s) && DrawsHarmless(cfg, s, e) && Timed(s.channels, {})
    requires !e.LoginEv? && !e.TimerEv? && !e.DatagramEv? && Owns(s, uid, e.sid)
    ensures Timed(HandleMessage(cfg, s, uid, e).channels, {}) <==> !StrandsChannel(cfg, s, e)
  {
    hide Invariant, HandleJoin, HandleCreate, HandleKick, Disconnect, StartShare, StopShare, Watch, StopWatching, Timed;
    hide CreateAllowed, ChannelCreated, PasswordAllowed, CreateMessage;
    var c := ChannelOf(s, e.sid);
    match e
    case JoinEv(sid, target, attempt, now) => HandleJoinTimed(cfg, s, uid, sid, target, attempt, now);
    case CreateEv(_, _, _, _) => CreateMessageTimed(cfg, s, uid, e);
    case PasswordEv(_, target, attempt) =>
      if SetPasswordRefusal(s, target, uid).None? {
        EditTimed(s.channels, target, s.channels[target].(hasPassword := attempt.Some?, password := attempt));
      }
    case KickEv(_, target, victim) => HandleKickTimed(cfg, s, uid, target, victim);
    case InviteEv(_, target, guest) =>
      if InviteRefusal(s, target, uid, guest).None? {
        EditTimed(s.channels, target, s.channels[target].(invited := s.channels[target].invited + {guest}));
      }
    case DeclineEv(_, target) =>
      if target in s.channels {
        EditTimed(s.channels, target, s.channels[target].(invited := s.channels[target].invited - {uid}));
      }
    case StartShareEv(sid, resolution) =>
      StartShareMovesNobody(s, uid, sid, c, resolution);
      AlikeTimed(s.channels, StartShare(s, uid, sid, c, resolution).channels, {});
    case StopShareEv(sid) =>
      StopShareMovesNobody(s, uid, sid, c);
      AlikeTimed(s.channels, StopShare(s, uid, sid, c).channels, {});
    case WatchEv(sid, sharer) =>
      WatchMovesNobody(s, uid, sid, sharer, c);
      AlikeTimed(s.channels, Watch(s, uid, sid, sharer, c).channels, {});
    case StopWatchingEv(sid) =>
      StopWatchingMovesNobody(s, uid, sid, c);
      AlikeTimed(s.channels, StopWatching(s, uid, sid, c).channels, {});
    case DisconnectEv(sid) => DisconnectTimed(cfg, s, uid, sid);
  }

  lemma StepTimed(cfg: Config, s: State, e: Event)
    requires Invariant(cfg, s) && DrawsHarmless(cfg, s, e) && Timed(s.channels, {})
    ensures Timed(Step(cfg, s, e).channels, {}) <==> !StrandsChannel(cfg, s, e)
  {
    hide HandleMessage, Core, Seated;
    if !e.LoginEv? && !e.TimerEv? && !e.DatagramEv? && e.sid in s.sessions {
      StepIsMessage(cfg, s, e);
      MessageTimed(cfg, s, s.sessions[e.sid].userId, e);
    }
  }

  ghost predicate NothingStrands(cfg: Config, s: State, es: seq<Event>)
    decreases |es|
  {
    es == [] || (!StrandsChannel(cfg, s, es[0]) && NothingStrands(cfg, Step(cfg, s, es[0]), es[1..]))
  }

  /** The invariant holds, and empty user-created channels have running timers, after each of the events. */
  ghost predicate TimedThroughout(cfg: Config, s: State, es: seq<Event>)
    decreases |es|
  {
    Invariant(cfg, s) && Timed(s.channels, {}) && (es == [] || TimedThroughout(cfg, Step(cfg, s, es[0]), es[1..]))
  }

  /** A run keeps both all along if and only if its draws are harmless and it strands no channel. */
  lemma {:induction false} TimedThroughoutIff(cfg: Config, s: State, es: seq<Event>)
    requires Invariant(cfg, s) && Timed(s.channels, {})
    ensures TimedThroughout(cfg, s, es) <==> AllDrawsHarmless(cfg, s, es) && NothingStrands(cfg, s, es)
    decreases |es|
  {
    hide Invariant, Timed, Step, StrandsChannel, DrawsHarmless;
    if es != [] {
      StepKeepsInvariantIff(cfg, s, es[0]);
      if DrawsHarmless(cfg, s, es[0]) {
        StepTimed(cfg, s, es[0]);
      }
      if DrawsHarmless(cfg, s, es[0]) && !StrandsChannel(cfg, s, es[0]) {
        TimedThroughoutIff(cfg, Step(cfg, s, es[0]), es[1..]);
      } else {
        UntimedAtOnce(cfg, Step(cfg, s, es[0]), es[1..]);
      }
    }
  }

  lemma UntimedAtOnce(cfg: Config, s: State, es: seq<Event>)
    requires !Invariant(cfg, s) || !Timed(s.channels, {})
    ensures !TimedThroughout(cfg, s, es)
  {
    hide Invariant, Timed, Step;
  }

  lemma {:induction false} TimedAtTheEnd(cfg: Config, s: State, es: seq<Event>)
    requires TimedThroughout(cfg, s, es)
    ensures Timed(Run(cfg, s, es).channels, {})
    decreases |es|
  {
    hide Invariant, Timed, Step;
    if es != [] {
      TimedAtTheEnd(cfg, Step(cfg, s, es[0]), es[1..]);
    }
  }

  /** In every run from start-up on that strands no new channel, empty user-created channels are about to go. */
  lemma EmptyChannelsAreTimed(cfg: Config, entries: seq<ChannelEntry>, es: seq<Event>)
    requires |entries| < U32 - 1 && AllDrawsHarmless(cfg, Initial(entries), es)
    requires NothingStrands(cfg, Initial(entries), es)
    ensures Timed(Run(cfg, Initial(entries), es).channels, {})
  {
    hide Invariant, Run, StrandsChannel, TimedThroughout, AllDrawsHarmless, NothingStrands;
    InitialIsInvariant(cfg, entries);
    TimedThroughoutIff(cfg, Initial(entries), es);
    TimedAtTheEnd(cfg, Initial(entries), es);
  }
}
