/**
 What every event does to the channels, written down without the server's machinery: who is in which
 channel, who is invited, who owns it and which password it has. The handlers clean up, leave, time,
 admit and fall back; `NextRooms` says in a few lines what comes of it, and `StepRefinesRooms` that it
 does. From there, who is a member after any run is decided by the last event that let a user in or out.
 */
module ServerRooms {
  import opened Wrappers
  import opened Bytes
  import opened RateLimiting
  import opened ServerModel
  import opened ServerInvariants
  import opened ServerNumbers
  import opened ServerRuns

  /** A channel as its users know it. */
  datatype Room = Room(
    name: string, limit: int, persistent: bool, owner: Option<UserId>, password: Option<string>,
    members: set<UserId>, invited: set<UserId>)

  type Rooms = map<ChannelId, Room>

  function RoomOf(ch: Channel): Room {
    Room(ch.name, ch.maxUsers, ch.persistent, ch.createdBy, ch.password, ch.members, ch.invited)
  }

  function RoomsOf(s: State): Rooms {
    map c | c in s.channels :: RoomOf(s.channels[c])
  }

  // ---------------------------------------------------------------- the rules

  /** A token is there, or has come in since the last call. */
  predicate HasToken(b: Bucket, now: real) {
    && b.maxTokens >= 1.0
    && b.tokens + (if now >= b.lastRefill then now - b.lastRefill else 0.0) * b.refillRate >= 1.0
  }

  /** No password is asked for, or the user is invited, or the attempt is right. */
  predicate MayEnter(cfg: Config, r: Room, u: UserId, attempt: Option<string>) {
    || r.password == None
    || u in r.invited
    || (attempt.Some? && r.password.value == if r.persistent then cfg.hash(attempt.value) else attempt.value)
  }

  predicate HasSpace(r: Room) {
    r.limit <= 0 || |r.members| < r.limit
  }

  /** Attempts with a password are limited to one a second, in bursts of three. */
  predicate MayTry(x: Session, attempt: Option<string>, now: real) {
    attempt == None || HasToken(x.passwordRate, now)
  }

  function TakeOut(rooms: Rooms, u: UserId): Rooms {
    map c | c in rooms :: rooms[c].(members := rooms[c].members - {u})
  }

  /** The user is in channel c and nowhere else, and an invitation to it is used up. */
  function MoveTo(rooms: Rooms, u: UserId, c: ChannelId): Rooms
    requires c in rooms
  {
    TakeOut(rooms, u)[c := rooms[c].(members := rooms[c].members + {u}, invited := rooms[c].invited - {u})]
  }

  predicate LetsIn(cfg: Config, rooms: Rooms, x: Session, c: ChannelId, attempt: Option<string>, now: real) {
    c in rooms && MayTry(x, attempt, now) && MayEnter(cfg, rooms[c], x.userId, attempt) && HasSpace(rooms[c])
  }

  /** One character in UTF-8 (section 3 of RFC 3629). */
  function Utf8Char(c: char): seq<byte> {
    var n := c as int;
    if n < 0x80 then [n]
    else if n < 0x800 then [0xC0 + n / 0x40, 0x80 + n % 0x40]
    else if n < 0x1_0000 then [0xE0 + n / 0x1000, 0x80 + n / 0x40 % 0x40, 0x80 + n % 0x40]
    else [0xF0 + n / 0x4_0000, 0x80 + n / 0x1000 % 0x40, 0x80 + n / 0x40 % 0x40, 0x80 + n % 0x40]
  }

  function Utf8(name: string): seq<byte> {
    if name == "" then [] else Utf8Char(name[0]) + Utf8(name[1..])
  }

  /** A name of at most so many bytes, without control characters. */
  predicate GoodName(cfg: Config, name: string) {
    && 0 < |name| && |Utf8(name)| <= cfg.maxNameLen
    && forall i :: 0 <= i < |name| ==> !((name[i] as int) < 0x20 || 0x7F <= (name[i] as int) < 0xA0)
  }

  function UserMade(rooms: Rooms): set<ChannelId> {
    set c | c in rooms && c != 0 && !rooms[c].persistent
  }

  /** One creation in five seconds, under a new name, as long as there are not too many channels. */
  predicate MayOpen(cfg: Config, rooms: Rooms, x: Session, name: string, now: real) {
    && HasToken(x.createRate, now) && GoodName(cfg, name)
    && |UserMade(rooms)| < cfg.maxChannels
    && forall c :: c in rooms ==> rooms[c].name != name
  }

  /** A new channel under number c, which its creator enters unless the password limit is in the way. */
  function Open(rooms: Rooms, x: Session, c: ChannelId, name: string, password: Option<string>, now: real): Rooms {
    var added := rooms[c := Room(name, 0, false, Some(x.userId), password, {}, {})];
    if MayTry(x, password, now) then MoveTo(added, x.userId, c) else added
  }

  predicate IsOwner(rooms: Rooms, u: UserId, c: ChannelId) {
    c != 0 && c in rooms && rooms[c].owner == Some(u)
  }

  function AfterMessage(cfg: Config, rooms: Rooms, x: Session, next: ChannelId, e: Event): Rooms
    requires 0 in rooms
  {
    match e
    case JoinEv(_, c, attempt, now) => if LetsIn(cfg, rooms, x, c, attempt, now) then MoveTo(rooms, x.userId, c) else rooms
    case CreateEv(_, name, password, now) =>
      if MayOpen(cfg, rooms, x, Trim(name), now) then Open(rooms, x, next, Trim(name), password, now) else rooms
    case PasswordEv(_, c, password) =>
      if IsOwner(rooms, x.userId, c) then rooms[c := rooms[c].(password := password)] else rooms
    case KickEv(_, c, target) =>
      if IsOwner(rooms, x.userId, c) && target != x.userId && target in rooms[c].members then MoveTo(rooms, target, 0) else rooms
    case InviteEv(_, c, target) =>
      if IsOwner(rooms, x.userId, c) && target !in rooms[c].members && |rooms[c].invited| < 50
      then rooms[c := rooms[c].(invited := rooms[c].invited + {target})] else rooms
    case DeclineEv(_, c) => if c in rooms then rooms[c := rooms[c].(invited := rooms[c].invited - {x.userId})] else rooms
    case DisconnectEv(_) => TakeOut(rooms, x.userId)
    case _ => rooms
  }

  /** The channels after an event. */
  function NextRooms(cfg: Config, s: State, e: Event): Rooms
    requires 0 in s.channels
  {
    match e
    case LoginEv(_, _, _, _) => RoomsOf(s)
    case DatagramEv(_, _, _) => RoomsOf(s)
    case TimerEv(t) => if t in s.timers then RoomsOf(s) - {s.timers[t]} else RoomsOf(s)
    case _ => if e.sid in s.sessions then AfterMessage(cfg, RoomsOf(s), s.sessions[e.sid], s.next.channel, e) else RoomsOf(s)
  }

  // ---------------------------------------------------------------- names

  lemma {:induction false} TrimOnce(name: string)
    requires name != ""
    ensures IsSpace(name[0]) ==> Trim(name) == Trim(name[1..])
    ensures !IsSpace(name[0]) && IsSpace(name[|name| - 1]) ==> Trim(name) == Trim(name[..|name| - 1])
    ensures !IsSpace(name[0]) && !IsSpace(name[|name| - 1]) ==> Trim(name) == name
  {
    hide IsSpace;
  }

  ghost predicate AllSpace(s: string) {
    forall i :: 0 <= i < |s| ==> IsSpace(s[i])
  }

  lemma {:induction false} TrimFront(before: string, name: string)
    requires AllSpace(before)
    ensures Trim(before + name) == Trim(name)
  {
    hide Trim, IsSpace;
    var all := before + name;
    if before == "" {
      assert all == name;
    } else {
      TrimOnce(all);
      TrimFront(before[1..], name);
      assert all[0] == before[0] && all[1..] == before[1..] + name;
    }
  }

  lemma {:induction false} TrimBack(name: string, after: string)
    requires AllSpace(after) && name != "" && !IsSpace(name[0])
    ensures Trim(name + after) == Trim(name)
  {
    hide Trim, IsSpace;
    var all, n := name + after, |after| - 1;
    if after == "" {
      assert all == name;
    } else {
      TrimOnce(all);
      TrimBack(name, after[..n]);
      assert all[0] == name[0] && all[|all| - 1] == after[n] && all[..|all| - 1] == name + after[..n];
    }
  }

  /** Exactly the white space around a name is taken off. */
  lemma TrimUndoesPadding(before: string, name: string, after: string)
    requires AllSpace(before) && AllSpace(after)
    requires name != "" ==> !IsSpace(name[0]) && !IsSpace(name[|name| - 1])
    ensures Trim(before + (name + after)) == name
  {
    assert Trim("") == "";
    hide Trim, IsSpace, AllSpace;
    TrimFront(before, name + after);
    if name == "" {
      TrimFront(after, "");
      assert name + after == after + "";
    } else {
      TrimBack(name, after);
      TrimOnce(name);
    }
  }

  // ---------------------------------------------------------------- what the handlers ask

  lemma TokenIsHad(b: Bucket, now: real)
    ensures TryConsume(b, now).1 <==> HasToken(b, now)
  {
    var elapsed := if now >= b.lastRefill then now - b.lastRefill else 0.0;
    assert Elapsed(b, now) == elapsed;
    hide Elapsed;
    var filled := b.tokens + elapsed * b.refillRate;
    assert Refill(b, now).tokens == MinReal(filled, b.maxTokens);
  }

  lemma TriesAre(s: State, sid: SessionId, attempt: Option<string>, now: real)
    requires sid in s.sessions
    ensures PasswordAllowed(s, sid, attempt, now) <==> MayTry(s.sessions[sid], attempt, now)
    ensures CreateAllowed(s, sid, now) <==> HasToken(s.sessions[sid].createRate, now)
  {
    hide TryConsume, HasToken;
    TokenIsHad(s.sessions[sid].passwordRate, now);
    TokenIsHad(s.sessions[sid].createRate, now);
  }

  lemma ValidationIs(cfg: Config, s: State, c: ChannelId, attempt: Option<string>, u: UserId)
    ensures ValidateJoin(cfg, s, c, attempt, u).None? <==>
            c in s.channels && MayEnter(cfg, RoomOf(s.channels[c]), u, attempt) && HasSpace(RoomOf(s.channels[c]))
  {
  }

  /** `join_channel` by itself, when it refuses: an invitation is used up, which there can be only if the channel is full. */
  lemma RefusedJoinCostsInvitation(cfg: Config, s: State, u: UserId, sid: SessionId, c: ChannelId, attempt: Option<string>)
    requires c in s.channels
    requires !MayEnter(cfg, RoomOf(s.channels[c]), u, attempt) || !HasSpace(RoomOf(s.channels[c]))
    ensures var ch := s.channels[c];
            Join(cfg, s, u, sid, c, attempt) == s.(channels := s.channels[c := ch.(invited := ch.invited - {u})])
  {
    ValidationIs(cfg, s, c, attempt, u);
    assert ValidateJoin(cfg, s, c, attempt, u) != Some(NoSuchChannel);
    hide ValidateJoin, MayEnter, HasSpace;
  }

  /** A deletion takes away an empty channel made by a user, and nothing else. */
  lemma DeletesEmptyRooms(s: State, c: ChannelId)
    ensures RoomsOf(Delete(s, c)) ==
            if c != 0 && c in s.channels && !s.channels[c].persistent && s.channels[c].members == {} then RoomsOf(s) - {c}
            else RoomsOf(s)
  {
    assert RoomsOf(s.(channels := s.channels - {c})) == RoomsOf(s) - {c};
    hide RoomOf;
  }

  lemma CreationIs(cfg: Config, s: State, name: string)
    ensures ChannelCreated(cfg, s, name) <==>
            && GoodName(cfg, name)
            && |UserMade(RoomsOf(s))| < cfg.maxChannels
            && forall c :: c in RoomsOf(s) ==> RoomsOf(s)[c].name != name
  {
    NameIs(cfg, name);
    hide NameAccepted, GoodName;
    var rooms := RoomsOf(s);
    assert UserMade(rooms) == UserChannels(s);
    hide UserMade, UserChannels;
    if NameTaken(s, name) {
      var c :| c in s.channels && s.channels[c].name == name;
      assert c in rooms && rooms[c].name == name;
    } else {
      assert forall c :: c in rooms ==> c in s.channels && rooms[c].name == s.channels[c].name;
    }
  }

  lemma {:induction false} LengthInBytes(name: string)
    ensures |Utf8(name)| == Utf8Len(name)
  {
    if name != "" {
      LengthInBytes(name[1..]);
    }
  }

  lemma NameIs(cfg: Config, name: string)
    ensures NameAccepted(cfg, name) <==> GoodName(cfg, name)
  {
    LengthInBytes(name);
    hide Utf8Len, Utf8;
    assert forall i :: 0 <= i < |name| ==>
             (IsControl(name[i]) <==> (name[i] as int) < 0x20 || 0x7F <= (name[i] as int) < 0xA0);
  }

  // ---------------------------------------------------------------- what stays of a channel

  /** The same channels under the same names, limits, owners and passwords. */
  ghost predicate SameRules(s: State, s': State) {
    && s'.channels.Keys == s.channels.Keys
    && forall c :: c in s.channels ==>
        && s'.channels[c].name == s.channels[c].name && s'.channels[c].maxUsers == s.channels[c].maxUsers
        && s'.channels[c].persistent == s.channels[c].persistent
        && s'.channels[c].createdBy == s.channels[c].createdBy && s'.channels[c].password == s.channels[c].password
  }

  lemma SameRulesCompose(s: State, s1: State, s2: State)
    requires SameRules(s, s1) && SameRules(s1, s2)
    ensures SameRules(s, s2)
  {
  }

  lemma SameSeatsSameRules(s: State, s': State)
    requires SameSeats(s, s')
    ensures SameRules(s, s') && RoomsOf(s') == RoomsOf(s)
  {
  }

  lemma TimerSameRules(s: State, c: ChannelId)
    requires c in s.channels
    ensures SameRules(s, StartDeleteTimer(s, c)) && RoomsOf(StartDeleteTimer(s, c)) == RoomsOf(s)
  {
    var s' := StartDeleteTimer(s, c);
    forall x | x in s.channels
      ensures x in s'.channels && RoomOf(s'.channels[x]) == RoomOf(s.channels[x])
    {
      TimedRoom(s, c, x);
    }
    TimerKeepsSeats(s, c);
    hide StartDeleteTimer, RoomOf;
    assert RoomsOf(s') == RoomsOf(s);
    SameRoomsSameRules(s, s');
  }

  lemma TimedRoom(s: State, c: ChannelId, x: ChannelId)
    requires c in s.channels && x in s.channels
    ensures x in StartDeleteTimer(s, c).channels && RoomOf(StartDeleteTimer(s, c).channels[x]) == RoomOf(s.channels[x])
  {
  }

  lemma SameRoomsSameRules(s: State, s': State)
    requires RoomsOf(s') == RoomsOf(s)
    ensures SameRules(s, s')
  {
    assert s'.channels.Keys == RoomsOf(s').Keys == s.channels.Keys;
    forall c | c in s.channels
      ensures RoomOf(s'.channels[c]) == RoomOf(s.channels[c])
    {
      assert RoomsOf(s')[c] == RoomsOf(s)[c];
    }
  }

  lemma LeaveSameRules(s: State, uid: UserId, sid: SessionId)
    ensures SameRules(s, Leave(s, uid, sid))
  {
  }

  lemma LeaveAndTimeSameRules(s: State, uid: UserId, sid: SessionId)
    ensures SameRules(s, LeaveAndTime(s, uid, sid))
  {
    hide StartDeleteTimer, SameRules;
    var s1 := Leave(s, uid, sid);
    LeaveSameRules(s, uid, sid);
    if CanLeave(s, uid, sid) {
      var c := s.sessions[sid].channelId;
      TimerSameRules(s1, c);
      SameRulesCompose(s, s1, StartDeleteTimer(s1, c));
    }
  }

  lemma PutInSameRules(s: State, uid: UserId, sid: SessionId, c: ChannelId)
    requires c in s.channels
    ensures SameRules(s, PutIn(s, uid, sid, c))
  {
  }

  lemma DepartSameRules(s: State, uid: UserId, sid: SessionId, c: ChannelId)
    ensures SameRules(s, Depart(s, uid, sid, c))
  {
    hide Depart, Cleaned, LeaveAndTime, SameRules, SameSeats;
    CleanedMovesNobody(s, uid, sid, c);
    SameSeatsSameRules(s, Cleaned(s, uid, sid, c));
    LeaveAndTimeSameRules(Cleaned(s, uid, sid, c), uid, sid);
    SameRulesCompose(s, Cleaned(s, uid, sid, c), LeaveAndTime(Cleaned(s, uid, sid, c), uid, sid));
  }

  /** A join that is let through keeps the rules of all channels. */
  lemma JoinSameRules(cfg: Config, s: State, uid: UserId, sid: SessionId, c: ChannelId, attempt: Option<string>, now: real)
    requires ValidateJoin(cfg, s, c, attempt, uid).None?
    ensures SameRules(s, HandleJoin(cfg, s, uid, sid, c, attempt, now))
  {
    hide Depart, PutIn, SameRules, SameSeats, ValidateJoin, HandleJoin, ChargePassword, PasswordAllowed;
    var s0 := ChargePassword(s, sid, attempt, now);
    var s1 := Depart(s0, uid, sid, c);
    CreatorJoins(cfg, s, uid, sid, c, attempt, now);
    ChargeMovesNobody(s, sid, attempt, now);
    SameSeatsSameRules(s, s0);
    DepartSameRules(s0, uid, sid, c);
    PutInSameRules(s1, uid, sid, c);
    SameRulesCompose(s, s0, s1);
    SameRulesCompose(s, s1, PutIn(s1, uid, sid, c));
  }

  // ---------------------------------------------------------------- joins

  lemma MovedIs(s: State, s': State, uid: UserId, sid: SessionId, c: ChannelId)
    requires MovedTo(s, s', uid, sid, c) && SameRules(s, s') && c in s.channels
    ensures RoomsOf(s') == MoveTo(RoomsOf(s), uid, c)
  {
    var moved := MoveTo(RoomsOf(s), uid, c);
    forall x | x in s.channels
      ensures RoomsOf(s')[x] == moved[x]
    {
      MovedRoom(s, s', uid, sid, c, x);
    }
    assert RoomsOf(s').Keys == moved.Keys;
    hide RoomsOf, MoveTo;
  }

  lemma MovedRoom(s: State, s': State, uid: UserId, sid: SessionId, c: ChannelId, x: ChannelId)
    requires MovedTo(s, s', uid, sid, c) && SameRules(s, s') && c in s.channels && x in s.channels
    ensures RoomOf(s'.channels[x]) == MoveTo(RoomsOf(s), uid, c)[x]
  {
    assert s'.channels[x].members == if x == c then s.channels[x].members + {uid} else s.channels[x].members - {uid};
  }

  lemma JoinRefines(cfg: Config, s: State, uid: UserId, sid: SessionId, c: ChannelId, attempt: Option<string>, now: real)
    requires Invariant(cfg, s) && Owns(s, uid, sid)
    ensures RoomsOf(HandleJoin(cfg, s, uid, sid, c, attempt, now))
            == if LetsIn(cfg, RoomsOf(s), s.sessions[sid], c, attempt, now) then MoveTo(RoomsOf(s), uid, c) else RoomsOf(s)
  {
    hide Invariant, HandleJoin, JoinOutcomeOf, ValidateJoin, PasswordAllowed, MovedTo, SameRules, MoveTo, MayTry, MayEnter, HasSpace,
      ChargePassword, SameSeats;
    JoinIsAllOrNothing(cfg, s, uid, sid, c, attempt, now);
    TriesAre(s, sid, attempt, now);
    ValidationIs(cfg, s, c, attempt, uid);
    if LetsIn(cfg, RoomsOf(s), s.sessions[sid], c, attempt, now) {
      JoinSameRules(cfg, s, uid, sid, c, attempt, now);
      MovedIs(s, HandleJoin(cfg, s, uid, sid, c, attempt, now), uid, sid, c);
    } else {
      ChargeMovesNobody(s, sid, attempt, now);
      SameSeatsSameRules(s, ChargePassword(s, sid, attempt, now));
    }
  }

  // ---------------------------------------------------------------- creations

  lemma CreatedRooms(s: State, name: string, password: Option<string>, uid: UserId)
    ensures RoomsOf(Created(s, name, password, uid))
            == RoomsOf(s)[s.next.channel := Room(name, 0, false, Some(uid), password, {}, {})]
  {
  }

  lemma CreateRefines(cfg: Config, s: State, uid: UserId, sid: SessionId, name: string, password: Option<string>, now: real)
    requires Invariant(cfg, s) && Owns(s, uid, sid) && ChannelCreated(cfg, s, name)
    requires s.next.channel in s.channels ==> Replaceable(s, uid, sid, s.next.channel, password, now)
    ensures RoomsOf(HandleCreate(cfg, s, uid, sid, name, password, now))
            == Open(RoomsOf(s), s.sessions[sid], s.next.channel, name, password, now)
  {
    hide Invariant, HandleJoin, NameAccepted, CreateRefusal, Open, PasswordAllowed, RoomsOf;
    if s.next.channel !in s.channels {
      CreateKeepsInvariant(cfg, s, name, password, uid);
      NewRoomRefines(cfg, s, uid, sid, name, password, now);
    } else if s.channels[s.next.channel].members == {} {
      ReplacedEmpty(cfg, s, name, password, uid);
      NewRoomRefines(cfg, s, uid, sid, name, password, now);
    } else {
      PutBackRefines(cfg, s, uid, sid, name, password, now);
    }
  }

  lemma NewRoomRefines(cfg: Config, s: State, uid: UserId, sid: SessionId, name: string, password: Option<string>, now: real)
    requires Owns(s, uid, sid) && Invariant(cfg, Created(s, name, password, uid))
    ensures RoomsOf(AfterCreation(cfg, s, name, password, uid, sid, now))
            == Open(RoomsOf(s), s.sessions[sid], s.next.channel, name, password, now)
  {
    var s1 := Created(s, name, password, uid);
    CreatedRooms(s, name, password, uid);
    assert s1.sessions == s.sessions;
    hide Invariant, HandleJoin, RoomsOf, MoveTo, MayTry, Created;
    JoinRefines(cfg, s1, uid, sid, s.next.channel, password, now);
  }

  lemma PutBackRefines(cfg: Config, s: State, uid: UserId, sid: SessionId, name: string, password: Option<string>, now: real)
    requires Invariant(cfg, s) && Owns(s, uid, sid) && CreateRefusal(cfg, s, name).None?
    requires s.next.channel in s.channels && s.next.channel != GENERAL && s.channels[s.next.channel].members == {uid}
    requires PasswordAllowed(s, sid, password, now)
    ensures RoomsOf(AfterCreation(cfg, s, name, password, uid, sid, now))
            == Open(RoomsOf(s), s.sessions[sid], s.next.channel, name, password, now)
  {
    var c, s1 := s.next.channel, Created(s, name, password, uid);
    var s0 := ChargePassword(s1, sid, password, now);
    OnlyThere(cfg, s, c, uid);
    StillOnlyThere(s, name, password, uid, sid, now);
    hide Invariant, AfterCreation, CreateRefusal, MayTry, PasswordAllowed, RoomsOf, MoveTo, PutIn, ChargePassword, Created, SameSeats;
    TriesAre(s, sid, password, now);
    OwnerIsPutBack(cfg, s, name, password, uid, sid, now);
    ChargeMovesNobody(s1, sid, password, now);
    SameSeatsSameRules(s1, s0);
    CreatedRooms(s, name, password, uid);
    PutInRooms(s0, uid, sid, c);
  }

  lemma StillOnlyThere(s: State, name: string, password: Option<string>, uid: UserId, sid: SessionId, now: real)
    requires forall x :: x in s.channels && x != s.next.channel ==> uid !in s.channels[x].members
    ensures var s0 := ChargePassword(Created(s, name, password, uid), sid, password, now);
            forall x :: x in s0.channels && x != s.next.channel ==> uid !in s0.channels[x].members
  {
    hide TryConsume;
  }

  lemma OnlyThere(cfg: Config, s: State, c: ChannelId, uid: UserId)
    requires Invariant(cfg, s) && c in s.channels && uid in s.channels[c].members
    ensures forall x :: x in s.channels && x != c ==> uid !in s.channels[x].members
  {
    hide Seated, NamesOk, Numbered, ChannelsOk, Housed, TimersOk, AddressesOk, UsersOk;
    assert s.sessions[s.userToSession[uid]].channelId == c;
  }

  lemma PutInChannels(s: State, uid: UserId, sid: SessionId, c: ChannelId)
    requires c in s.channels
    ensures PutIn(s, uid, sid, c).channels == s.channels[c := Admit(s.channels[c], uid)]
  {
  }

  lemma PutInRooms(s: State, uid: UserId, sid: SessionId, c: ChannelId)
    requires c in s.channels
    requires forall x :: x in s.channels && x != c ==> uid !in s.channels[x].members
    ensures RoomsOf(PutIn(s, uid, sid, c)) == MoveTo(RoomsOf(s), uid, c)
  {
    var s', moved := PutIn(s, uid, sid, c), MoveTo(RoomsOf(s), uid, c);
    PutInChannels(s, uid, sid, c);
    hide PutIn;
    forall x | x in s.channels
      ensures x in s'.channels && RoomOf(s'.channels[x]) == moved[x]
    {
      assert x != c ==> s.channels[x].members - {uid} == s.channels[x].members;
    }
  }

  // ---------------------------------------------------------------- kicks

  lemma KicksAre(cfg: Config, s: State, c: ChannelId, requester: UserId, target: UserId)
    requires Invariant(cfg, s)
    ensures KickRefusal(s, c, requester, target).None? <==>
            IsOwner(RoomsOf(s), requester, c) && target != requester && target in RoomsOf(s)[c].members
  {
    hide Invariant, RoomsOf;
    assert c in RoomsOf(s) <==> c in s.channels by { RoomKeys(s); }
    if c in s.channels {
      RoomsAt(s, c);
      MembersHaveSessions(cfg, s, c, target);
    }
  }

  lemma RoomKeys(s: State)
    ensures RoomsOf(s).Keys == s.channels.Keys
  {
  }

  lemma MembersHaveSessions(cfg: Config, s: State, c: ChannelId, u: UserId)
    requires Invariant(cfg, s) && c in s.channels
    ensures u in s.channels[c].members ==> u in s.userToSession
  {
  }

  lemma KickRefines(cfg: Config, s: State, requester: UserId, c: ChannelId, target: UserId)
    requires Invariant(cfg, s) && GENERAL in s.channels
    ensures RoomsOf(HandleKick(cfg, s, requester, c, target))
            == if IsOwner(RoomsOf(s), requester, c) && target != requester && target in RoomsOf(s)[c].members
               then MoveTo(RoomsOf(s), target, 0) else RoomsOf(s)
  {
    hide Invariant, HandleKick, KickRefusal, MoveTo, IsOwner;
    KicksAre(cfg, s, c, requester, target);
    KickNeverHalfDone(cfg, s, c, requester, target);
    if KickRefusal(s, c, requester, target).None? {
      KickedRefines(cfg, s, requester, c, target);
    } else {
      RefusedKick(cfg, s, requester, c, target);
    }
  }

  lemma RefusedKick(cfg: Config, s: State, requester: UserId, c: ChannelId, target: UserId)
    requires KickRefusal(s, c, requester, target).Some? && KickRefusal(s, c, requester, target) != Some(NoSession)
    ensures HandleKick(cfg, s, requester, c, target) == s
  {
    hide KickRefusal, Join;
  }

  lemma KickedRefines(cfg: Config, s: State, requester: UserId, c: ChannelId, target: UserId)
    requires Invariant(cfg, s) && GENERAL in s.channels && KickRefusal(s, c, requester, target).None?
    ensures RoomsOf(HandleKick(cfg, s, requester, c, target)) == MoveTo(RoomsOf(s), target, 0)
  {
    KickKeepsCore(cfg, s, c, requester, target);
    KickedIsMember(s, requester, c, target);
    OnlyThere(cfg, s, c, target);
    hide Invariant, KickRefusal, Join, StartDeleteTimer, ValidateJoin, PutIn, Core, Seated, Nowhere, RoomsOf, MoveTo, Members;
    var s1, sid := Kick(s, c, requester, target), s.userToSession[target];
    var ch := Members(s.channels[c], s.channels[c].members - {target});
    PutInIs(cfg, s1, target, sid, GENERAL, None);
    EditedRooms(s, c, ch);
    MembersRoom(s.channels[c], s.channels[c].members - {target});
    RoomsAt(s, c);
    GoneFromAll(s, c, target);
    PutInRooms(s1, target, sid, GENERAL);
    MoveFromAnywhere(RoomsOf(s), c, target);
    ThenTimed(Join(cfg, s1, target, sid, GENERAL, None), c);
  }

  lemma KickedIsMember(s: State, requester: UserId, c: ChannelId, target: UserId)
    requires KickRefusal(s, c, requester, target).None?
    ensures c in s.channels && target in s.channels[c].members && c != GENERAL
  {
  }

  lemma MembersRoom(ch: Channel, members: set<UserId>)
    ensures RoomOf(Members(ch, members)) == RoomOf(ch).(members := members)
  {
  }

  lemma RoomsAt(s: State, c: ChannelId)
    requires c in s.channels
    ensures c in RoomsOf(s) && RoomsOf(s)[c] == RoomOf(s.channels[c]) && RoomsOf(s).Keys == s.channels.Keys
  {
  }

  lemma GoneFromAll(s: State, c: ChannelId, uid: UserId)
    requires c in s.channels && forall x :: x in s.channels && x != c ==> uid !in s.channels[x].members
    ensures var s1 := WithChannel(s, c, Members(s.channels[c], s.channels[c].members - {uid}));
            forall x :: x in s1.channels ==> uid !in s1.channels[x].members
  {
  }

  /** A user that was taken out of its channel before moves to the same effect. */
  lemma MoveFromAnywhere(rooms: Rooms, c: ChannelId, u: UserId)
    requires c in rooms && 0 in rooms && c != 0
    ensures MoveTo(rooms[c := rooms[c].(members := rooms[c].members - {u})], u, 0) == MoveTo(rooms, u, 0)
  {
    var a, b := MoveTo(rooms[c := rooms[c].(members := rooms[c].members - {u})], u, 0), MoveTo(rooms, u, 0);
    assert a.Keys == b.Keys;
    assert rooms[c].members - {u} - {u} == rooms[c].members - {u};
  }

  lemma ThenTimed(s: State, c: ChannelId)
    ensures c in s.channels ==> RoomsOf(StartDeleteTimer(s, c)) == RoomsOf(s)
  {
    if c in s.channels {
      TimerSameRules(s, c);
    }
  }

  // ---------------------------------------------------------------- disconnects

  lemma TakenOutIs(s: State, s': State, uid: UserId)
    requires SameRules(s, s') && NoHarder(s.channels, s'.channels) && OthersStay(s.channels, s'.channels, uid)
    requires Nowhere(s'.channels, uid)
    ensures RoomsOf(s') == TakeOut(RoomsOf(s), uid)
  {
    forall x | x in s.channels
      ensures RoomOf(s'.channels[x]) == TakeOut(RoomsOf(s), uid)[x]
    {
      assert s'.channels[x].members == s.channels[x].members - {uid};
    }
  }

  lemma DisconnectRefines(cfg: Config, s: State, uid: UserId, sid: SessionId)
    requires Invariant(cfg, s) && Owns(s, uid, sid)
    ensures RoomsOf(Disconnect(cfg, s, uid, sid)) == TakeOut(RoomsOf(s), uid)
  {
    hide CleanupShares, LeaveAndTime, RemoveSession, Core, Seated, SameSeats, SameRules, Nowhere, NoHarder, OthersStay, TakeOut;
    var c := ChannelOf(s, sid);
    var s1 := if c != GENERAL then CleanupShares(s, uid, sid, c) else s;
    CleanupMovesNobody(s, uid, sid, c);
    SameSeatsAsItself(s);
    SameSeatsSameRules(s, s1);
    SameSeatsKeepsCore(cfg, s, s1);
    SameSeatsOwner(s, s1, uid, sid);
    var s2 := LeaveAndTime(s1, uid, sid);
    LeaveAndTimeKeepsCore(cfg, s1, uid, sid);
    LeaveAndTimeIsLocal(s1, uid, sid);
    LeaveAndTimeSameRules(s1, uid, sid);
    TakenOutIs(s1, s2, uid);
    RemoveSessionKeepsCore(cfg, s2, sid);
    SameChannelsSameRooms(s2, RemoveSession(cfg, s2, sid));
  }

  lemma SameChannelsSameRooms(s: State, s': State)
    requires s'.channels == s.channels
    ensures RoomsOf(s') == RoomsOf(s)
  {
  }

  // ---------------------------------------------------------------- everything else

  lemma EditedRooms(s: State, c: ChannelId, ch: Channel)
    ensures RoomsOf(WithChannel(s, c, ch)) == RoomsOf(s)[c := RoomOf(ch)]
  {
  }

  lemma EditRefines(cfg: Config, s: State, x: Session, e: Event)
    requires e.PasswordEv? || e.InviteEv? || e.DeclineEv?
    requires 0 in s.channels
    ensures RoomsOf(HandleMessage(cfg, s, x.userId, e)) == AfterMessage(cfg, RoomsOf(s), x, s.next.channel, e)
  {
    match e
    case PasswordEv(_, c, password) =>
      if SetPasswordRefusal(s, c, x.userId).None? {
        EditedRooms(s, c, s.channels[c].(hasPassword := password.Some?, password := password));
      }
    case InviteEv(_, c, target) =>
      if InviteRefusal(s, c, x.userId, target).None? {
        EditedRooms(s, c, s.channels[c].(invited := s.channels[c].invited + {target}));
      }
    case DeclineEv(_, c) =>
      if c in s.channels {
        EditedRooms(s, c, s.channels[c].(invited := s.channels[c].invited - {x.userId}));
      }
  }

  lemma SharingRefines(cfg: Config, s: State, uid: UserId, e: Event)
    requires e.StartShareEv? || e.StopShareEv? || e.WatchEv? || e.StopWatchingEv?
    ensures RoomsOf(HandleMessage(cfg, s, uid, e)) == RoomsOf(s)
  {
    hide SameSeats, StartShare, StopShare, Watch, StopWatching, RoomsOf;
    var c := ChannelOf(s, e.sid);
    match e {
      case StartShareEv(sid, resolution) => StartShareMovesNobody(s, uid, sid, c, resolution);
      case StopShareEv(sid) => StopShareMovesNobody(s, uid, sid, c);
      case WatchEv(sid, sharer) => WatchMovesNobody(s, uid, sid, sharer, c);
      case StopWatchingEv(sid) => StopWatchingMovesNobody(s, uid, sid, c);
    }
    SameSeatsSameRules(s, HandleMessage(cfg, s, uid, e));
  }

  lemma TimerRefines(cfg: Config, s: State, t: TimerId)
    requires Invariant(cfg, s) && 0 in s.channels
    ensures RoomsOf(FireTimer(s, t)) == NextRooms(cfg, s, TimerEv(t))
  {
    hide Invariant, Delete, RoomsOf, DeleteRefusal;
    if t in s.timers {
      TimerFindsEmptyChannel(cfg, s, t);
      FiredRooms(s, t);
    }
  }

  lemma FiredRooms(s: State, t: TimerId)
    requires t in s.timers && DeleteRefusal(s.(timers := s.timers - {t}), s.timers[t]).None?
    ensures RoomsOf(FireTimer(s, t)) == RoomsOf(s) - {s.timers[t]}
  {
    hide DeleteRefusal, RoomOf;
  }

  lemma CreateMessageRefines(cfg: Config, s: State, e: Event)
    requires Invariant(cfg, s) && DrawsHarmless(cfg, s, e) && e.CreateEv? && e.sid in s.sessions && 0 in s.channels
    ensures RoomsOf(HandleMessage(cfg, s, s.sessions[e.sid].userId, e))
            == AfterMessage(cfg, RoomsOf(s), s.sessions[e.sid], s.next.channel, e)
  {
    hide Invariant, HandleCreate, ChannelCreated, CreateAllowed, Replaceable, ChargeCreate, Open, HasToken, GoodName, RoomsOf, SameSeats;
    var uid, s0, name := s.sessions[e.sid].userId, ChargeCreate(s, e.sid, e.now), Trim(e.name);
    ChargeCreateKeepsInvariant(cfg, s, uid, e.sid, e.now);
    ChargeCreateIs(cfg, s, uid, e.sid, name, e.attempt, e.now);
    ChargeCreateMovesNobody(s, e.sid, e.now);
    SameSeatsSameRules(s, s0);
    TriesAre(s, e.sid, e.attempt, e.now);
    CreationIs(cfg, s, name);
    if MayOpen(cfg, RoomsOf(s), s.sessions[e.sid], name, e.now) {
      CreateRefines(cfg, s0, uid, e.sid, name, e.attempt, e.now);
      SameOpening(s, e.sid, name, e.attempt, e.now);
    } else if CreateAllowed(s, e.sid, e.now) {
      RefusedCreation(cfg, s0, uid, e.sid, name, e.attempt, e.now);
    }
  }

  lemma RefusedCreation(cfg: Config, s: State, uid: UserId, sid: SessionId, name: string, password: Option<string>, now: real)
    requires !ChannelCreated(cfg, s, name)
    ensures HandleCreate(cfg, s, uid, sid, name, password, now) == s
  {
    hide NameAccepted, CreateRefusal, HandleJoin;
  }

  lemma SameOpening(s: State, sid: SessionId, name: string, password: Option<string>, now: real)
    requires sid in s.sessions
    ensures sid in ChargeCreate(s, sid, now).sessions
    ensures Open(RoomsOf(s), ChargeCreate(s, sid, now).sessions[sid], s.next.channel, name, password, now)
            == Open(RoomsOf(s), s.sessions[sid], s.next.channel, name, password, now)
  {
    hide TryConsume, HasToken, MoveTo;
  }

  lemma MessageRefines(cfg: Config, s: State, e: Event)
    requires Invariant(cfg, s) && DrawsHarmless(cfg, s, e) && 0 in s.channels
    requires !e.LoginEv? && !e.TimerEv? && !e.DatagramEv? && e.sid in s.sessions
    ensures RoomsOf(HandleMessage(cfg, s, s.sessions[e.sid].userId, e))
            == AfterMessage(cfg, RoomsOf(s), s.sessions[e.sid], s.next.channel, e)
  {
    hide Invariant, DrawsHarmless, HandleJoin, CreateMessage, HandleKick, Disconnect, MoveTo, LetsIn, MayOpen, Open, TakeOut, RoomsOf;
    var uid := s.sessions[e.sid].userId;
    if e.JoinEv? {
      JoinRefines(cfg, s, uid, e.sid, e.c, e.attempt, e.now);
    } else if e.CreateEv? {
      CreateMessageRefines(cfg, s, e);
    } else if e.KickEv? {
      KickRefines(cfg, s, uid, e.c, e.target);
    } else if e.DisconnectEv? {
      DisconnectRefines(cfg, s, uid, e.sid);
    } else if e.PasswordEv? || e.InviteEv? || e.DeclineEv? {
      EditRefines(cfg, s, s.sessions[e.sid], e);
    } else {
      SharingRefines(cfg, s, uid, e);
    }
  }

  /** Every event does to the channels what `NextRooms` says, and nothing else. */
  lemma StepRefinesRooms(cfg: Config, s: State, e: Event)
    requires Invariant(cfg, s) && DrawsHarmless(cfg, s, e)
    ensures 0 in s.channels && RoomsOf(Step(cfg, s, e)) == NextRooms(cfg, s, e)
  {
    GeneralIsThere(cfg, s);
    hide Invariant, DrawsHarmless, HandleMessage, AfterMessage, FireTimer, Step, NextRooms, RoomsOf;
    if e.TimerEv? {
      TimerRefines(cfg, s, e.timer);
      TimerStep(cfg, s, e);
    } else if e.LoginEv? || e.DatagramEv? || e.sid !in s.sessions {
      QuietRefines(cfg, s, e);
    } else {
      StepIsMessage(cfg, s, e);
      MessageRefines(cfg, s, e);
      MessageStep(cfg, s, e);
    }
  }

  lemma TimerStep(cfg: Config, s: State, e: Event)
    requires 0 in s.channels && e.TimerEv?
    ensures Step(cfg, s, e) == FireTimer(s, e.timer)
    ensures NextRooms(cfg, s, e) == if e.timer in s.timers then RoomsOf(s) - {s.timers[e.timer]} else RoomsOf(s)
  {
    hide FireTimer, RoomsOf;
  }

  lemma MessageStep(cfg: Config, s: State, e: Event)
    requires 0 in s.channels && !e.LoginEv? && !e.TimerEv? && !e.DatagramEv? && e.sid in s.sessions
    ensures NextRooms(cfg, s, e) == AfterMessage(cfg, RoomsOf(s), s.sessions[e.sid], s.next.channel, e)
  {
    hide AfterMessage, RoomsOf;
  }

  lemma QuietRefines(cfg: Config, s: State, e: Event)
    requires 0 in s.channels && !e.TimerEv? && (e.LoginEv? || e.DatagramEv? || e.sid !in s.sessions)
    ensures RoomsOf(Step(cfg, s, e)) == NextRooms(cfg, s, e)
  {
    hide HandleMessage, AfterMessage, Login, Resolve, RoomsOf;
    if e.LoginEv? {
      LoginSameChannels(cfg, s, e.name, e.token, e.ip, e.now);
      SameChannelsSameRooms(s, Step(cfg, s, e));
    } else if e.DatagramEv? {
      ResolveSameChannels(cfg, s, e.src, e.sid, e.token);
      SameChannelsSameRooms(s, Step(cfg, s, e));
    }
  }

  lemma LoginSameChannels(cfg: Config, s: State, name: string, token: int, ip: int, now: real)
    ensures Login(cfg, s, name, token, ip, now).channels == s.channels
  {
    hide NewBucket;
  }

  lemma ResolveSameChannels(cfg: Config, s: State, src: Addr, claimed: SessionId, token: int)
    ensures Resolve(cfg, s, src, claimed, token).channels == s.channels
  {
    hide Resolved, LearningRefused;
    if src in s.addrToSession {
      assert Resolve(cfg, s, src, claimed, token).channels == s.channels;
    }
  }

  lemma GeneralIsThere(cfg: Config, s: State)
    requires Invariant(cfg, s)
    ensures 0 in s.channels
  {
  }
}
