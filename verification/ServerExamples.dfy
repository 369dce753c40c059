/**
 Runs from start-up on that reach the failing sides of the laws about screen shares and delete timers:
 the states that the laws exclude are not merely conceivable.
 */
module ServerExamples {
  import opened Wrappers
  import opened Bytes
  import opened RateLimiting
  import opened ServerModel
  import opened ServerInvariants
  import opened ServerNumbers
  import opened ServerRuns
  import opened ServerShares
  import opened ServerTimers

  function SmallServer(): Config {
    Config(2, 1, 32, x => x, x => x)
  }

  /** Whoever has joined nothing yet and is let in without a password is simply put in. */
  lemma FirstJoinIs(cfg: Config, s: State, uid: UserId, sid: SessionId, c: ChannelId, now: real)
    requires sid in s.sessions && s.sessions[sid].channelId == GENERAL && GENERAL in s.channels
    requires uid !in s.channels[GENERAL].members && ValidateJoin(cfg, s, c, None, uid).None?
    ensures c in s.channels && HandleJoin(cfg, s, uid, sid, c, None, now) == PutIn(s, uid, sid, c)
  {
    hide PutIn;
    assert Depart(s, uid, sid, c) == s;
  }

  /** Two clients log in; the first opens a channel; the second joins it, shares, and is kicked. */
  function KickRun(): seq<Event> {
    [LoginEv("a", 1, 0, 0.0), LoginEv("b", 2, 0, 0.0), CreateEv(1, "room", None, 0.0), JoinEv(2, 1, None, 0.0),
     StartShareEv(2, 0), KickEv(1, 1, 2)]
  }

  function LoneSession(uid: UserId, name: string): Session {
    Session(uid, name, GENERAL, false, None, None, uid, 0, NewBucket(3.0, 1.0, 0.0), NewBucket(1.0, 0.2, 0.0))
  }

  /** The state after the two logins. */
  function TwoLoggedIn(): State {
    State(map[1 := LoneSession(1, "a"), 2 := LoneSession(2, "b")], map[1 := 1, 2 := 2], map["a" := 1, "b" := 2], map[],
          map[GENERAL := GeneralChannel()], map[], Counters(3, 3, 1, 0))
  }

  lemma TwoLoginsLeadTo()
    ensures var cfg, es := SmallServer(), KickRun(); Step(cfg, Step(cfg, Initial([]), es[0]), es[1]) == TwoLoggedIn()
  {
    hide NewBucket;
    var s := Login(SmallServer(), Initial([]), "a", 1, 0, 0.0);
    assert s == State(map[1 := LoneSession(1, "a")], map[1 := 1], map["a" := 1], map[],
                      map[GENERAL := GeneralChannel()], map[], Counters(2, 2, 1, 0));
    assert |s.sessions| == 1;
  }

  /** The first client has its one creation for the time being behind it. */
  function Charged(): State {
    ChargeCreate(TwoLoggedIn(), 1, 0.0)
  }

  /** The first client's room. */
  function RoomOpened(): State {
    var s := Charged();
    PutIn(WithChannel(s, 1, NewChannel("room", None, 1)).(next := s.next.(channel := 2)), 1, 1, 1)
  }

  /** A new client may create a channel, whatever became of its password bucket. */
  lemma FirstCreationIsAllowed(s: State, sid: SessionId)
    requires sid in s.sessions && s.sessions[sid].createRate == NewBucket(1.0, 0.2, 0.0)
    ensures CreateAllowed(s, sid, 0.0)
  {
  }

  lemma RoomIsTrimmed()
    ensures Trim("room") == "room"
  {
  }

  lemma RoomNameIsAccepted()
    ensures NameAccepted(SmallServer(), "room")
  {
    assert Utf8Len("room") == 1 + Utf8Len("oom");
    assert Utf8Len("oom") == 1 + Utf8Len("om");
    assert Utf8Len("om") == 1 + Utf8Len("m");
    assert Utf8Len("m") == 1 + Utf8Len("");
  }

  lemma RoomIsCreated()
    ensures var s := Charged();
            && CreateRefusal(SmallServer(), s, "room").None?
            && (Create(SmallServer(), s, "room", None, 1)
                == WithChannel(s, 1, NewChannel("room", None, 1)).(next := s.next.(channel := 2)))
  {
    hide NewBucket, TryConsume;
    assert UserChannels(Charged()) == {};
  }

  lemma CreatorIsPutIn()
    ensures var s := Charged();
            var s1 := WithChannel(s, 1, NewChannel("room", None, 1)).(next := s.next.(channel := 2));
            HandleJoin(SmallServer(), s1, 1, 1, 1, None, 0.0) == RoomOpened()
  {
    hide PutIn, NewBucket, HandleJoin, TryConsume;
    var s := Charged();
    var s1 := WithChannel(s, 1, NewChannel("room", None, 1)).(next := s.next.(channel := 2));
    FirstJoinIs(SmallServer(), s1, 1, 1, 1, 0.0);
  }

  lemma CreationLeadsTo()
    ensures Step(SmallServer(), TwoLoggedIn(), KickRun()[2]) == RoomOpened()
  {
    hide NameAccepted, CreateRefusal, Create, HandleJoin, RoomOpened, NewBucket, CreateAllowed, TryConsume, Trim;
    FirstCreationIsAllowed(TwoLoggedIn(), 1);
    RoomIsTrimmed();
    RoomNameIsAccepted();
    RoomIsCreated();
    CreatorIsPutIn();
  }

  lemma JoinLeadsTo()
    ensures 1 in RoomOpened().channels
    ensures Step(SmallServer(), RoomOpened(), KickRun()[3]) == PutIn(RoomOpened(), 2, 2, 1)
  {
    hide NewBucket, HandleJoin, TryConsume;
    FirstJoinIs(SmallServer(), RoomOpened(), 2, 2, 1, 0.0);
  }

  lemma SharingLeadsTo()
    requires 1 in RoomOpened().channels
    ensures var s := Step(SmallServer(), PutIn(RoomOpened(), 2, 2, 1), KickRun()[4]);
            KicksInvolved(s, KickRun()[5])
  {
    hide NewBucket, TryConsume;
  }

  /** While the numbers drawn are free, only kicks can harm a share. */
  lemma {:induction false} NoKickSpares(cfg: Config, s: State, es: seq<Event>)
    requires forall i :: 0 <= i < |es| ==> !es[i].KickEv?
    requires DrawnBefore(s) && NumbersLeft(s, Draws(es))
    ensures SparesShares(cfg, s, es)
    decreases |es|
  {
    hide Step, NumbersLeft, ChannelCreated, CreateAllowed, KickRefusal, Uninvolved;
    if es != [] {
      DrawsOfOne(es[0]);
      StepDrawsBefore(cfg, s, es[0], Draws(es[1..]));
      NoKickSpares(cfg, Step(cfg, s, es[0]), es[1..]);
    }
  }

  lemma RunOfFive(cfg: Config, s: State, es: seq<Event>)
    requires |es| == 5
    ensures Run(cfg, s, es)
            == Step(cfg, Step(cfg, Step(cfg, Step(cfg, Step(cfg, s, es[0]), es[1]), es[2]), es[3]), es[4])
  {
    hide Step;
    RunAppend(cfg, s, es[..4], es[4]);
    RunAppend(cfg, s, es[..3], es[3]);
    RunAppend(cfg, s, es[..2], es[2]);
    RunAppend(cfg, s, es[..1], es[1]);
    RunAppend(cfg, s, [], es[0]);
    assert es == es[..4] + [es[4]] && es[..4] == es[..3] + [es[3]] && es[..3] == es[..2] + [es[2]];
    assert es[..2] == es[..1] + [es[1]] && es[..1] == [] + [es[0]];
  }

  /** The failing side is reached from start-up on: the kicked client's share stays behind. */
  lemma KickStrandsShare()
    ensures AllDrawsHarmless(SmallServer(), Initial([]), KickRun())
    ensures !ShareInvariant(Run(SmallServer(), Initial([]), KickRun()))
  {
    hide Step, ShareInvariant, Invariant, KicksInvolved, ReplacesShare, TwoLoggedIn, RoomOpened, PutIn, AllDrawsHarmless, SparesShares, Run;
    var cfg, es := SmallServer(), KickRun();
    var before := es[..5];
    assert es == before + [es[5]];
    FewDraws(es);
    FewDraws(before);
    FewDrawsFromStart(cfg, [], es);
    FewDrawsFromStart(cfg, [], before);
    TwoLoginsLeadTo();
    CreationLeadsTo();
    JoinLeadsTo();
    SharingLeadsTo();
    RunOfFive(cfg, Initial([]), before);
    RunAppend(cfg, Initial([]), before, es[5]);
    assert DrawnBefore(Initial([])) && NumbersLeft(Initial([]), Draws(before));
    NoKickSpares(cfg, Initial([]), before);
    SharesHoldAtFirst(cfg);
    RunKeepsShares(cfg, Initial([]), before);
    StepKeepsSharesIff(cfg, Run(cfg, Initial([]), before), es[5]);
  }

  lemma SharesHoldAtFirst(cfg: Config)
    ensures Invariant(cfg, Initial([])) && ShareInvariant(Initial([]))
  {
    InitialIsInvariant(cfg, []);
  }

  // ---------------------------------------------------------------- a stranded channel

  /** A client guesses three passwords of a channel that does not exist, then opens one with a password. */
  function CreateRun(): seq<Event> {
    var attempt := JoinEv(1, 7, Some("x"), 0.0);
    [LoginEv("a", 1, 0, 0.0), attempt, attempt, attempt, CreateEv(1, "room", Some("p"), 0.0)]
  }

  function AttemptBucket(tokens: real): Bucket {
    Bucket(tokens, 3.0, 1.0, 0.0)
  }

  /** The state after the login and some attempts: all that changes is how many are left. */
  function Attempted(tokens: real): State {
    var x := LoneSession(1, "a").(passwordRate := AttemptBucket(tokens));
    State(map[1 := x], map[1 := 1], map["a" := 1], map[], map[GENERAL := GeneralChannel()], map[], Counters(2, 2, 1, 0))
  }

  lemma AttemptCosts(tokens: real)
    requires 1.0 <= tokens <= 3.0
    ensures TryConsume(AttemptBucket(tokens), 0.0) == (AttemptBucket(tokens - 1.0), true)
  {
  }

  lemma AttemptLeadsTo(tokens: real)
    requires 1.0 <= tokens <= 3.0
    ensures Step(SmallServer(), Attempted(tokens), JoinEv(1, 7, Some("x"), 0.0)) == Attempted(tokens - 1.0)
  {
    hide TryConsume, AttemptBucket;
    AttemptCosts(tokens);
    assert ChargePassword(Attempted(tokens), 1, Some("x"), 0.0) == Attempted(tokens - 1.0);
  }

  lemma LoginLeadsTo()
    ensures Step(SmallServer(), Initial([]), CreateRun()[0]) == Attempted(3.0)
  {
  }

  lemma FourthAttemptIsRefused()
    ensures StrandsChannel(SmallServer(), Attempted(0.0), CreateRun()[4])
  {
    hide NameAccepted, CreateAllowed, Trim, NewBucket;
    RoomIsTrimmed();
    RoomNameIsAccepted();
    FirstCreationIsAllowed(Attempted(0.0), 1);
    assert UserChannels(Attempted(0.0)) == {};
  }

  lemma {:induction false} NoCreationStrands(cfg: Config, s: State, es: seq<Event>)
    requires forall i :: 0 <= i < |es| ==> !es[i].CreateEv?
    ensures NothingStrands(cfg, s, es)
    decreases |es|
  {
    hide Step;
    if es != [] {
      NoCreationStrands(cfg, Step(cfg, s, es[0]), es[1..]);
    }
  }

  lemma RunOfFour(cfg: Config, s: State, es: seq<Event>)
    requires |es| == 4
    ensures Run(cfg, s, es) == Step(cfg, Step(cfg, Step(cfg, Step(cfg, s, es[0]), es[1]), es[2]), es[3])
  {
    hide Step;
    RunAppend(cfg, s, es[..3], es[3]);
    RunAppend(cfg, s, es[..2], es[2]);
    RunAppend(cfg, s, es[..1], es[1]);
    RunAppend(cfg, s, [], es[0]);
    assert es == es[..3] + [es[3]] && es[..3] == es[..2] + [es[2]];
    assert es[..2] == es[..1] + [es[1]] && es[..1] == [] + [es[0]];
  }

  /** The failing side is reached from start-up on: an empty channel without a delete timer. */
  lemma CreationStrandsChannel()
    ensures AllDrawsHarmless(SmallServer(), Initial([]), CreateRun())
    ensures !Timed(Run(SmallServer(), Initial([]), CreateRun()).channels, {})
  {
    hide Step, Invariant, StrandsChannel, Attempted, AllDrawsHarmless, NothingStrands, Run, Timed, DrawsHarmless;
    var cfg, es := SmallServer(), CreateRun();
    var before := es[..4];
    assert es == before + [es[4]];
    FewDraws(es);
    FewDraws(before);
    FewDrawsFromStart(cfg, [], es);
    FewDrawsFromStart(cfg, [], before);
    LoginLeadsTo();
    AttemptLeadsTo(3.0);
    AttemptLeadsTo(2.0);
    AttemptLeadsTo(1.0);
    FourthAttemptIsRefused();
    RunOfFour(cfg, Initial([]), before);
    RunAppend(cfg, Initial([]), before, es[4]);
    NoCreationStrands(cfg, Initial([]), before);
    EmptyChannelsAreTimed(cfg, [], before);
    EveryRunIsInvariant(cfg, [], before);
    RoomNumberIsHarmless();
    StepTimed(cfg, Run(cfg, Initial([]), before), es[4]);
  }

  lemma RoomNumberIsHarmless()
    ensures DrawsHarmless(SmallServer(), Attempted(0.0), CreateRun()[4])
  {
  }

  // ---------------------------------------------------------------- a counter that wraps

  /** One client stays; the counters of users and sessions are at k. */
  function Waiting(k: nat): State {
    State(map[1 := LoneSession(1, "a")], map[1 := 1], map["a" := 1], map[],
          map[GENERAL := GeneralChannel()], map[], Counters(k, k, 1, 0))
  }

  /** Another client comes, is number k, and goes again, until the numbers have come round to the first client's. */
  function Visits(k: nat): seq<Event>
    requires k < U32
    decreases if k <= 1 then 1 - k else U32 + 1 - k
  {
    if k == 1 then [] else [LoginEv("b", 2, 0, 0.0), DisconnectEv(k)] + Visits(Next(k))
  }

  lemma VisitorComes(k: nat)
    requires k != 1
    ensures var s := Waiting(k);
            Step(SmallServer(), s, LoginEv("b", 2, 0, 0.0))
            == s.(sessions := s.sessions[k := LoneSession(k, "b").(udpToken := 2)],
                  userToSession := s.userToSession[k := k], nameToSession := s.nameToSession["b" := k],
                  next := Counters(Next(k), Next(k), 1, 0))
  {
    hide NewBucket, Next;
    assert |Waiting(k).sessions| == 1;
  }

  lemma VisitorGoes(k: nat)
    requires k != 1
    ensures var cfg := SmallServer();
            Step(cfg, Step(cfg, Waiting(k), LoginEv("b", 2, 0, 0.0)), DisconnectEv(k)) == Waiting(Next(k))
  {
    hide NewBucket, Next, Login;
    VisitorComes(k);
    var cfg := SmallServer();
    var s := Step(cfg, Waiting(k), LoginEv("b", 2, 0, 0.0));
    var s' := Disconnect(cfg, s, k, k);
    assert LeaveAndTime(s, k, k) == s;
    assert s'.sessions == Waiting(k).sessions && s'.userToSession == Waiting(k).userToSession;
    assert s'.nameToSession == Waiting(k).nameToSession && s'.channels == Waiting(k).channels;
  }

  lemma {:induction false} VisitsLeadTo(k: nat)
    requires k < U32
    ensures Run(SmallServer(), Waiting(k), Visits(k)) == Waiting(1)
    decreases if k <= 1 then 1 - k else U32 + 1 - k
  {
    hide Step, Waiting, SmallServer;
    if k != 1 {
      var es := Visits(k);
      assert es[1..][1..] == Visits(Next(k));
      VisitorGoes(k);
      VisitsLeadTo(Next(k));
    }
  }

  /** A client that stays, visits until the counters have wrapped, and one more login. */
  function WrapRun(): seq<Event> {
    [LoginEv("a", 1, 0, 0.0)] + Visits(2) + [LoginEv("b", 2, 0, 0.0)]
  }

  lemma StayerComes()
    ensures Step(SmallServer(), Initial([]), LoginEv("a", 1, 0, 0.0)) == Waiting(2)
  {
    hide NewBucket;
  }

  lemma WaitingIsInvariant()
    ensures Invariant(SmallServer(), Waiting(1))
  {
    hide Invariant, Step, Waiting, LoggedIn;
    InitialIsInvariant(SmallServer(), []);
    StayerComes();
    StepKeepsInvariantIff(SmallServer(), Initial([]), LoginEv("a", 1, 0, 0.0));
    CountersDoNotMatter();
  }

  lemma CountersDoNotMatter()
    requires Invariant(SmallServer(), Waiting(2))
    ensures Invariant(SmallServer(), Waiting(1))
  {
    hide UsersOk, NamesOk, Housed, MembersOk, TimersOk, AddressesOk, ChannelsOk, Seated, NewBucket;
  }

  lemma AnotherFits()
    ensures LoggedIn(SmallServer(), Waiting(1), "b")
  {
    hide NewBucket;
    assert |Waiting(1).sessions| == 1;
  }

  lemma StayerIsReplaced()
    ensures var s := Step(SmallServer(), Waiting(1), LoginEv("b", 2, 0, 0.0));
            && "a" in s.nameToSession && s.nameToSession["a"] == 1
            && 1 in s.sessions && s.sessions[1].username == "b"
            && s.sessions.Keys == {1}
  {
    hide NewBucket;
    assert |Waiting(1).sessions| == 1;
  }

  lemma RunBetween(cfg: Config, s: State, first: Event, es: seq<Event>, last: Event)
    ensures Run(cfg, s, [first] + es + [last]) == Step(cfg, Run(cfg, Step(cfg, s, first), es), last)
  {
    hide Step;
    assert ([first] + es)[1..] == es;
    RunAppend(cfg, s, [first] + es, last);
  }

  /**
   From start-up on, a run reaches the failing side of the law about logins: once the counters have come
   round, a newcomer takes over the session of a client that is still there, under whose name it is then found.
   */
  lemma WrapBreaksInvariant()
    ensures var s := Run(SmallServer(), Initial([]), WrapRun());
            && !Invariant(SmallServer(), s)
            && s.sessions.Keys == {1} && s.sessions[1].username == "b"
            && "a" in s.nameToSession && s.nameToSession["a"] == 1
  {
    hide Step, Run, Visits, Waiting, SmallServer, Invariant, LoggedIn;
    RunBetween(SmallServer(), Initial([]), LoginEv("a", 1, 0, 0.0), Visits(2), LoginEv("b", 2, 0, 0.0));
    StayerComes();
    VisitsLeadTo(2);
    WaitingIsInvariant();
    AnotherFits();
    StayerIsReplaced();
    NumberOneIsInUse();
    LoginStepIff(SmallServer(), Waiting(1), LoginEv("b", 2, 0, 0.0));
    LastIsLogin(SmallServer(), Waiting(1), LoginEv("b", 2, 0, 0.0));
  }

  lemma NumberOneIsInUse()
    ensures LoggedIn(SmallServer(), Waiting(1), "b") ==> !DrawsHarmless(SmallServer(), Waiting(1), LoginEv("b", 2, 0, 0.0))
  {
    hide LoggedIn;
  }

  lemma LastIsLogin(cfg: Config, s: State, e: Event)
    requires e.LoginEv?
    ensures Step(cfg, s, e) == Login(cfg, s, e.name, e.token, e.ip, e.now)
  {
  }
}
