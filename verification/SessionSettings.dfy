/**
 The setters of the session manager (session.rs): each reads the session state through
 the daemon's channel, tells the root daemon which session SDDM should start, and posts
 the changed state back.  The same fact is thereby kept twice, and must agree.
 */
module SessionSettings {
  import opened Base
  import opened SessionDaemon

  const GAME_SESSION := "gamescope-wayland.desktop"
  const DEFAULT_DESKTOP := "plasma.desktop"

  predicate IsAt(s: string, part: string, i: nat) {
    i + |part| <= |s| && s[i..i + |part|] == part
  }

  predicate Contains(s: string, part: string) {
    exists i :: 0 <= i <= |s| && IsAt(s, part, i)
  }

  predicate EndsWith(s: string, part: string) {
    |part| <= |s| && s[|s| - |part|..] == part
  }

  /** `is_valid_desktop_session_name` */
  predicate IsValidName(name: string) {
    && (name == "" || name[0] != '.')
    && EndsWith(name, ".desktop")
    && !Contains(name, "gamescope")
  }

  /** `session_for_mode` */
  function SessionFor(mode: LoginMode, state: SessionState): string {
    if mode.Game? then GAME_SESSION else if state.desktop.Some? then state.desktop.value else DEFAULT_DESKTOP
  }

  // ----- the daemon as an object -----

  class UserDaemon {
    var channel: seq<Message>
    var memory: SessionState
    var disk: SessionState
    var status: Status
    var replies: map<nat, SessionState>

    ghost function Now(): State
      reads this
    {
      State(channel, memory, disk, status, replies)
    }

    /** The state after all queued changes. */
    ghost function Latest(): SessionState
      reads this
    {
      Logical(memory, channel)
    }

    constructor (state: SessionState)
      ensures Now() == Start(state)
    {
      channel, memory, disk, status, replies := [], state, state, Running, map[];
    }

    method Post(m: Message)
      modifies this
      ensures Now() == Step(old(Now()), Send(m))
    {
      channel := channel + [m];
    }

    /** One round of `Daemon::run`: `handle_message` and `UserContext::handle_command`. */
    method Round(written: bool)
      requires status.Running? && channel != []
      modifies this
      ensures Now() == Handle(old(Now()), written)
    {
      var m := channel[0];
      channel := channel[1..];
      match m {
        case Set(from, state) =>
          memory := state;
          if |channel| < CAPACITY {
            channel := channel + [WriteState(from)];
          } else {
            status := Stuck;
          }
        case Get(_, id) =>
          replies := replies[id := memory];
        case ReadConfig(_) =>
        case WriteState(_) =>
          if written {
            disk := memory;
          } else {
            status := Stopped;
          }
      }
    }

    /** `get_state`: post a read and let the loop run until it is answered. `Err` when
        the loop ends or blocks first. */
    method GetState(from: nat, id: nat, written: bool) returns (r: Result<SessionState>)
      requires id !in replies && id !in IdsIn(channel)
      modifies this
      ensures Latest() == old(Latest())
      ensures r.Ok? ==> r.value == old(Latest()) && status.Running? && |channel| <= |old(channel)|
      ensures old(status).Running? && written && |old(channel)| < CAPACITY ==> r.Ok?
      ensures replies.Keys + IdsIn(channel) <= old(replies).Keys + old(IdsIn(channel)) + {id}
    {
      ghost var expected := Latest();
      ghost var ids := IdsIn(channel);
      ghost var k := |channel|;
      ghost var before := channel;
      LogicalAppend(memory, channel, Get(from, id));
      Post(Get(from, id));
      assert channel[..k] == before;
      IdsAppend(before, Get(from, id));
      while status.Running? && id !in replies
        invariant Latest() == expected
        invariant id !in replies ==>
          k < |channel| && channel[k] == Get(from, id) && Logical(memory, channel[..k]) == expected
          && id !in IdsIn(channel[..k])
        invariant id in replies ==> replies[id] == expected && status.Running?
        invariant |channel| <= |before| + if id in replies then 0 else 1
        invariant old(status).Running? && written && |before| < CAPACITY ==> status.Running?
        invariant IdsIn(channel) <= ids + {id}
        invariant replies.Keys <= old(replies).Keys + {id} + ids
        decreases if id in replies then 0 else k + 1, status.Running?
      {
        ghost var was := Now();
        HandleKeepsLogical(was, written);
        IdsFirst(was.all);
        if was.all[0].Set? && |was.all[1..]| < CAPACITY {
          IdsAppend(was.all[1..], WriteState(was.all[0].from));
        }
        assert k > 0 ==> was.all[..k][0] == was.all[0] && was.all[..k][1..] == was.all[1..][..k - 1];
        if k > 0 {
          IdsFirst(was.all[..k]);
        } else {
          assert was.all[..k] == [];
        }
        Round(written);
        if k > 0 {
          k := k - 1;
          assert channel[..k] == was.all[1..][..k];
        }
      }
      r := if id in replies then Ok(replies[id]) else Err;
    }
  }

  // ----- the setters as functions of what is kept twice -----

  /** The session state as clients see it, and the session SDDM is told to start. */
  datatype Settings = Settings(state: SessionState, sddm: string)

  /** How the rest of the world answers a setter: whether the session file exists
      (`None` is an error), how the call to the root daemon ends, and whether the
      channel still accepts the new state. */
  datatype World = World(present: Option<bool>, root: Call, open: bool)

  /** The root daemon refuses session names with line breaks. */
  function RootCall(session: string, root: Call): Call {
    if '\n' in session then Refused else root
  }

  function Told(s: Settings, session: string, root: Call): string {
    if RootCall(session, root).Refused? then s.sddm else session
  }

  function SetMode(s: Settings, mode: LoginMode, w: World): Settings {
    var session := SessionFor(mode, s.state);
    Settings(
      if RootCall(session, w.root).Done? && w.open then s.state.(mode := mode) else s.state,
      Told(s, session, w.root))
  }

  function SetDesktop(s: Settings, session: string, w: World): Settings {
    if !IsValidName(session) || w.present != Some(true) then s
    else if s.state.mode.Game? then
      if w.open then s.(state := s.state.(desktop := Some(session))) else s
    else
      Settings(
        if RootCall(session, w.root).Done? && w.open then s.state.(desktop := Some(session)) else s.state,
        Told(s, session, w.root))
  }

  class SessionManager {
    const daemon: UserDaemon
    var sddm: string        // zz-steamos-autologin.conf, written by the root daemon
    var nextRead: nat

    ghost predicate Valid()
      reads this, daemon
    {
      && (forall id :: id in daemon.replies ==> id < nextRead)
      && (forall id :: id in IdsIn(daemon.channel) ==> id < nextRead)
    }

    /** The daemon runs and has room for a read, so that reads are answered as long as
        its file writes succeed. */
    ghost predicate Roomy()
      reads daemon
    {
      daemon.status.Running? && |daemon.channel| < CAPACITY
    }

    ghost function Now(): Settings
      reads this, daemon
    {
      Settings(daemon.Latest(), sddm)
    }

    constructor (state: SessionState, sddm: string)
      ensures Valid() && Now() == Settings(state, sddm) && fresh(daemon)
    {
      daemon := new UserDaemon(state);
      this.sddm := sddm;
      nextRead := 0;
    }

    method GetState(written: bool) returns (r: Result<SessionState>)
      requires Valid()
      modifies daemon, this`nextRead
      ensures Valid() && Now() == old(Now())
      ensures r.Ok? ==> r.value == old(Now()).state
      ensures r.Ok? && old(Roomy()) ==> Roomy()
      ensures old(Roomy()) && written ==> r.Ok?
    {
      r := daemon.GetState(0, nextRead, written);
      nextRead := nextRead + 1;
    }

    method SessionForMode(mode: LoginMode, written: bool) returns (r: Result<string>)
      requires Valid()
      modifies daemon, this`nextRead
      ensures Valid() && Now() == old(Now())
      ensures r.Ok? ==> r.value == SessionFor(mode, old(Now()).state)
      ensures mode.Game? || (old(Roomy()) && written) ==> r.Ok?
    {
      if mode.Game? { return Ok(GAME_SESSION); }
      var state := GetState(written);
      if state.Err? { return Err; }
      return Ok(if state.value.desktop.Some? then state.value.desktop.value else DEFAULT_DESKTOP);
    }

    method SetDefaultSession(session: string, root: Call) returns (ok: bool)
      modifies this`sddm
      ensures ok == RootCall(session, root).Done?
      ensures sddm == if RootCall(session, root).Refused? then old(sddm) else session
    {
      if '\n' in session { return false; }
      if !root.Refused? {
        sddm := session;
      }
      ok := root.Done?;
    }

    method WriteState(state: SessionState, open: bool) returns (ok: bool)
      requires Valid()
      modifies daemon
      ensures Valid() && ok == open
      ensures Now() == if open then old(Now()).(state := state) else old(Now())
    {
      if !open { return false; }
      LogicalAppend(daemon.memory, daemon.channel, Set(0, state));
      IdsAppend(daemon.channel, Set(0, state));
      daemon.Post(Set(0, state));
      return true;
    }

    /** Either a read goes unanswered and nothing changes, or the setter does what it
        says. */
    method SetDefaultLoginMode(mode: LoginMode, written: bool, w: World) returns (ok: bool, answered: bool)
      requires Valid()
      modifies daemon, this
      ensures Valid()
      ensures Now() == if answered then SetMode(old(Now()), mode, w) else old(Now())
      ensures old(Roomy()) && written ==> answered
      ensures ok <==> answered && RootCall(SessionFor(mode, old(Now()).state), w.root).Done? && w.open
      ensures ok ==> answered && Now().state == old(Now()).state.(mode := mode)
    {
      var state := GetState(written);
      if state.Err? { return false, false; }
      var session := SessionForMode(mode, written);
      if session.Err? { return false, false; }
      answered := true;
      ok := SetDefaultSession(session.value, w.root);
      if !ok { return; }
      ok := WriteState(state.value.(mode := mode), w.open);
    }

    method SetDefaultDesktopSession(session: string, written: bool, w: World) returns (ok: bool, answered: bool)
      requires Valid()
      modifies daemon, this
      ensures Valid()
      ensures Now() == if answered then SetDesktop(old(Now()), session, w) else old(Now())
      ensures old(Roomy()) && written ==> answered
      ensures ok <==>
        && answered && IsValidName(session) && w.present == Some(true) && w.open
        && (old(Now()).state.mode.Desktop? ==> RootCall(session, w.root).Done?)
      ensures ok ==> Now().state == old(Now()).state.(desktop := Some(session))
    {
      if !IsValidName(session) || w.present != Some(true) { return false, true; }
      var state := GetState(written);
      if state.Err? { return false, false; }
      answered := true;
      if state.value.mode.Desktop? {
        ok := SetDefaultSession(session, w.root);
        if !ok { return; }
      }
      ok := WriteState(state.value.(desktop := Some(session)), w.open);
    }
  }

  // ----- the two copies agree -----

  predicate Agree(s: Settings) { s.sddm == SessionFor(s.state.mode, s.state) }

  /** The root daemon's change and the new state both happen, or neither does. */
  predicate GoesTogether(session: string, w: World) {
    match RootCall(session, w.root)
    case Done => w.open
    case Refused => true
    case Lost => false
  }

  /** A setter of the login mode keeps the copies in agreement exactly when SDDM had the
      session already, or the root daemon's change and the new state go through
      together. */
  lemma SetModeAgreesIff(s: Settings, mode: LoginMode, w: World)
    requires Agree(s)
    ensures var session := SessionFor(mode, s.state);
      Agree(SetMode(s, mode, w)) <==>
        session == s.sddm || GoesTogether(session, w)
  {
  }

  lemma SetDesktopAgreesIff(s: Settings, session: string, w: World)
    requires Agree(s) && IsValidName(session) && w.present == Some(true)
    ensures Agree(SetDesktop(s, session, w)) <==>
      s.state.mode.Game? || session == s.sddm || GoesTogether(session, w)
  {
  }

  lemma EndsWithIff(name: string, part: string)
    ensures EndsWith(name, part) <==> exists stem :: name == stem + part
  {
    if EndsWith(name, part) {
      assert name == name[..|name| - |part|] + part;
    }
  }

  lemma ContainsIff(name: string, part: string)
    ensures Contains(name, part) <==> exists before, after :: name == before + part + after
  {
    if Contains(name, part) {
      var i :| 0 <= i <= |name| && IsAt(name, part, i);
      assert name == name[..i] + part + name[i + |part|..];
    }
    forall before, after | name == before + part + after
      ensures Contains(name, part)
    {
      assert IsAt(name, part, |before|);
    }
  }

  /** Which desktop sessions are accepted by name: those with the right ending that are
      neither hidden nor the game session. */
  lemma AcceptedNamesIff(name: string)
    ensures IsValidName(name) <==>
      && (exists stem :: name == stem + ".desktop")
      && !(exists rest :: name == "." + rest)
      && !(exists before, after :: name == before + "gamescope" + after)
  {
    EndsWithIff(name, ".desktop");
    ContainsIff(name, "gamescope");
    if name != "" && name[0] == '.' {
      assert name == "." + name[1..];
    }
  }

  /** What a setter of the login mode tells SDDM, and when the state changes with it. */
  lemma SddmIsTold(s: Settings, mode: LoginMode, w: World)
    ensures var session :=
        if mode.Game? then "gamescope-wayland.desktop"
        else if s.state.desktop.Some? then s.state.desktop.value else "plasma.desktop";
      && SetMode(s, mode, w).sddm == (if '\n' in session || w.root.Refused? then s.sddm else session)
      && SetMode(s, mode, w).state ==
           if '\n' !in session && w.root.Done? && w.open then s.state.(mode := mode) else s.state
  {
  }

  /** A desktop session that is not valid or not installed changes nothing; in game mode a
      valid one is remembered for later and SDDM is left alone. */
  lemma DesktopIsRemembered(s: Settings, session: string, w: World)
    ensures !IsValidName(session) || w.present != Some(true) ==> SetDesktop(s, session, w) == s
    ensures IsValidName(session) && w.present == Some(true) && s.state.mode.Game? ==>
      SetDesktop(s, session, w) == if w.open then s.(state := SessionState(Game, Some(session))) else s
  {
  }

  datatype Operation =
    | ToMode(mode: LoginMode, world: World)
    | ToDesktop(session: string, world: World)

  function Apply(s: Settings, op: Operation): Settings {
    match op
    case ToMode(mode, w) => SetMode(s, mode, w)
    case ToDesktop(session, w) => SetDesktop(s, session, w)
  }

  function ApplyAll(s: Settings, ops: seq<Operation>): Settings
    decreases |ops|
  {
    if ops == [] then s else Apply(ApplyAll(s, ops[..|ops| - 1]), ops[|ops| - 1])
  }

  /** The session an operation tells SDDM, if it comes that far. */
  function Session(s: Settings, op: Operation): Option<string> {
    match op
    case ToMode(mode, _) => Some(SessionFor(mode, s.state))
    case ToDesktop(session, w) =>
      if IsValidName(session) && w.present == Some(true) && s.state.mode.Desktop? then Some(session) else None
  }

  /** An operation that changes one of the copies only. */
  predicate Splits(s: Settings, op: Operation) {
    var session := Session(s, op);
    session.Some? && session.value != s.sddm && !GoesTogether(session.value, op.world)
  }

  ghost predicate NoneSplits(s: Settings, ops: seq<Operation>)
    decreases |ops|
  {
    ops == [] ||
    (var n := |ops| - 1; NoneSplits(s, ops[..n]) && !Splits(ApplyAll(s, ops[..n]), ops[n]))
  }

  ghost predicate AlwaysAgree(s: Settings, ops: seq<Operation>)
    decreases |ops|
  {
    Agree(ApplyAll(s, ops)) && (ops != [] ==> AlwaysAgree(s, ops[..|ops| - 1]))
  }

  /** Over every run of setters, whatever fails: the copies agree at every moment exactly
      when no operation changes only one of them. */
  lemma {:induction false} AlwaysAgreeIff(s: Settings, ops: seq<Operation>)
    requires Agree(s)
    ensures AlwaysAgree(s, ops) <==> NoneSplits(s, ops)
    decreases |ops|
  {
    if ops != [] {
      var n := |ops| - 1;
      var s1 := ApplyAll(s, ops[..n]);
      AlwaysAgreeIff(s, ops[..n]);
      if AlwaysAgree(s, ops[..n]) {
        assert Agree(s1);
        match ops[n] {
          case ToMode(mode, w) => SetModeAgreesIff(s1, mode, w);
          case ToDesktop(session, w) =>
            if IsValidName(session) && w.present == Some(true) {
              SetDesktopAgreesIff(s1, session, w);
            }
        }
      }
    }
  }

  predicate ValidDesktop(state: SessionState) { state.desktop.Some? ==> IsValidName(state.desktop.value) }

  lemma GameSessionIffGame(state: SessionState)
    requires ValidDesktop(state)
    ensures SessionFor(state.mode, state) == GAME_SESSION <==> state.mode.Game?
  {
    assert IsAt(GAME_SESSION, "gamescope", 0);
    assert |DEFAULT_DESKTOP| != |GAME_SESSION|;
  }

  lemma SetterKeepsAgreement(s: Settings, op: Operation)
    requires Agree(s) && ValidDesktop(s.state) && op.world.open && !op.world.root.Lost?
    ensures Agree(Apply(s, op)) && ValidDesktop(Apply(s, op).state)
  {
  }

  /** After every run of setters in which no root call is misreported and the channel
      stays open, whether or not the root daemon refused some: SDDM's session is the
      one for the state, and it is the game session exactly in game mode. */
  lemma {:induction false} SettersKeepAgreement(s: Settings, ops: seq<Operation>)
    requires Agree(s) && ValidDesktop(s.state)
    requires forall i :: 0 <= i < |ops| ==> ops[i].world.open && !ops[i].world.root.Lost?
    ensures Agree(ApplyAll(s, ops)) && ValidDesktop(ApplyAll(s, ops).state)
    ensures ApplyAll(s, ops).sddm == "gamescope-wayland.desktop" <==> ApplyAll(s, ops).state.mode.Game?
    decreases |ops|
  {
    if ops != [] {
      var n := |ops| - 1;
      SettersKeepAgreement(s, ops[..n]);
      SetterKeepsAgreement(ApplyAll(s, ops[..n]), ops[n]);
    }
    GameSessionIffGame(ApplyAll(s, ops).state);
  }

  /** Whatever clients ask for and whatever fails, no session name with a line break reaches
      SDDM's file. */
  lemma {:induction false} NoLineBreakReachesSddm(s: Settings, ops: seq<Operation>)
    requires '\n' !in s.sddm
    ensures '\n' !in ApplyAll(s, ops).sddm
    decreases |ops|
  {
    if ops != [] {
      NoLineBreakReachesSddm(s, ops[..|ops| - 1]);
    }
  }

  /** The hypotheses are needed: a root call that took effect but was reported as failed
      leaves SDDM and the state apart. */
  lemma MisreportedCallSplits(s: Settings)
    requires s == Settings(SessionState(Game, None), GAME_SESSION)
    ensures Agree(s) && !Agree(SetMode(s, Desktop, World(Some(true), Lost, true)))
  {
    assert |DEFAULT_DESKTOP| != |GAME_SESSION|;
  }

  /** The reads waiting in a channel, by name. */
  ghost function IdsIn(all: seq<Message>): set<nat> {
    if all == [] then {}
    else IdsIn(all[1..]) + if all[0].Get? then {all[0].id} else {}
  }

  lemma IdsFirst(all: seq<Message>)
    requires all != []
    ensures IdsIn(all[1..]) <= IdsIn(all)
    ensures all[0].Get? ==> all[0].id in IdsIn(all)
  {
  }

  lemma {:induction false} IdsAppend(all: seq<Message>, m: Message)
    ensures IdsIn(all + [m]) == IdsIn(all) + if m.Get? then {m.id} else {}
  {
    if all == [] {
      assert (all + [m])[1..] == [];
    } else {
      assert (all + [m])[1..] == all[1..] + [m];
      IdsAppend(all[1..], m);
    }
  }
}
