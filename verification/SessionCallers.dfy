/**
 How many callers the daemon's channel can bear.  Callers reach the session manager
 through the one `SessionManagement1` object.  Its getters share it, each caller waiting
 for one answer at a time; a setter has it for itself, from its first read until the new
 state is accepted by the channel, and may give up on the way.  Callers below `setters`
 may set, all of them may read.
 */
module SessionCallers {
  import opened Base
  import opened SessionDaemon

  /** How far the setter that has the object is. */
  datatype Progress = Reading | HasRead | Sending

  datatype Setter = Setter(caller: nat, progress: Progress)

  /** The daemon, the callers waiting in a getter, and the setter at work. */
  datatype System = System(daemon: State, readers: set<nat>, setter: Option<Setter>)

  /** Who may call. */
  datatype Callers = Callers(setters: nat, others: nat)
  {
    function All(): nat { setters + others }
  }

  datatype Move =
    | Read(c: nat)                            // a getter starts
    | Begin(c: nat)                           // a setter starts, with its first read
    | ReadAgain                               // it may need the state a second time
    | Change(state: SessionState)             // it sends the new state
    | Accepted                                // and the channel has room for it
    | GiveUp                                  // or it fails on the way
    | Round(written: bool)                    // the daemon handles a message

  /** No new state waits outside the channel. */
  ghost predicate HasRoom(all: seq<Message>) { forall i :: CAPACITY <= i < |all| ==> !all[i].Set? }

  ghost predicate MayMove(callers: Callers, sys: System, m: Move) {
    match m
    case Read(c) => c < callers.All() && sys.setter.None? && c !in sys.readers
    case Begin(c) => c < callers.setters && sys.setter.None? && sys.readers == {}
    case ReadAgain => sys.setter.Some? && sys.setter.value.progress.HasRead?
    case Change(_) => sys.setter.Some? && sys.setter.value.progress.HasRead?
    case Accepted => sys.setter.Some? && sys.setter.value.progress.Sending? && HasRoom(sys.daemon.all)
    case GiveUp => sys.setter.Some? && sys.setter.value.progress.HasRead?
    case Round(written) => Enabled(sys.daemon, Turn(written))
  }

  /** Who is answered when the daemon handles a message. */
  function Answered(sys: System, m: Message): System {
    if !m.Get? then sys
    else if sys.setter.Some? && sys.setter.value.caller == m.from then
      sys.(setter := Some(Setter(m.from, HasRead)))
    else sys.(readers := sys.readers - {m.from})
  }

  function Post(sys: System, m: Message): System { sys.(daemon := Step(sys.daemon, Send(m))) }

  ghost function Do(callers: Callers, sys: System, m: Move): System
    requires MayMove(callers, sys, m)
  {
    match m
    case Read(c) => Post(sys, Get(c, 0)).(readers := sys.readers + {c})
    case Begin(c) => Post(sys, Get(c, 0)).(setter := Some(Setter(c, Reading)))
    case ReadAgain =>
      var c := sys.setter.value.caller; Post(sys, Get(c, 0)).(setter := Some(Setter(c, Reading)))
    case Change(state) =>
      var c := sys.setter.value.caller; Post(sys, Set(c, state)).(setter := Some(Setter(c, Sending)))
    case Accepted => sys.(setter := None)
    case GiveUp => sys.(setter := None)
    case Round(written) =>
      Answered(sys, sys.daemon.all[0]).(daemon := Step(sys.daemon, Turn(written)))
  }

  /** The daemon as it starts. */
  function First(state: SessionState): System { System(Start(state), {}, None) }

  type Moves = seq<Move>

  ghost predicate Can(callers: Callers, state: SessionState, moves: Moves)
    decreases |moves|, 0
  {
    moves == [] ||
    (var n := |moves| - 1;
     Can(callers, state, moves[..n]) && MayMove(callers, After(callers, state, moves[..n]), moves[n]))
  }

  ghost function After(callers: Callers, state: SessionState, moves: Moves): System
    requires Can(callers, state, moves)
    decreases |moves|, 1
  {
    if moves == [] then First(state)
    else var n := |moves| - 1; Do(callers, After(callers, state, moves[..n]), moves[n])
  }

  // ----- what the channel can hold -----

  datatype Kind = S | W

  /** The new states and writes in the channel, in order. */
  function Changes(all: seq<Message>): seq<Kind> {
    if all == [] then []
    else
      Changes(all[..|all| - 1]) +
      match all[|all| - 1]
      case Set(_, _) => [S]
      case WriteState(_) => [W]
      case _ => []
  }

  /** The callers whose reads are in the channel. */
  function Askers(all: seq<Message>): set<nat> {
    if all == [] then {}
    else Askers(all[..|all| - 1]) + if all[|all| - 1].Get? then {all[|all| - 1].from} else {}
  }

  /** Nobody has two reads in the channel, and there is nothing but states, writes and
      reads. */
  ghost predicate OneReadEach(all: seq<Message>) {
    && (forall m :: m in all ==> !m.ReadConfig?)
    && (forall i, j :: 0 <= i < j < |all| && all[i].Get? && all[j].Get? ==> all[i].from != all[j].from)
  }

  lemma ChangesAppend(all: seq<Message>, m: Message)
    ensures Changes(all + [m]) == Changes(all) + match m
      case Set(_, _) => [S]
      case WriteState(_) => [W]
      case _ => []
    ensures Askers(all + [m]) == Askers(all) + if m.Get? then {m.from} else {}
  {
    assert (all + [m])[..|all|] == all;
  }

  lemma {:induction false} ChangesFirst(all: seq<Message>)
    requires all != []
    ensures Changes(all) == (match all[0]
      case Set(_, _) => [S]
      case WriteState(_) => [W]
      case _ => []) + Changes(all[1..])
    ensures Askers(all) == Askers(all[1..]) + if all[0].Get? then {all[0].from} else {}
  {
    var n := |all| - 1;
    if n > 0 {
      ChangesFirst(all[..n]);
      assert all[..n][1..] == all[1..][..n - 1];
    }
  }

  lemma {:induction false} AskersAre(all: seq<Message>, c: nat)
    ensures c in Askers(all) <==> exists i :: 0 <= i < |all| && all[i].Get? && all[i].from == c
  {
    if all != [] {
      var n := |all| - 1;
      AskersAre(all[..n], c);
      if i :| 0 <= i < |all| && all[i].Get? && all[i].from == c {
        assert i < n ==> all[..n][i] == all[i];
      }
    }
  }

  lemma InitFits(all: seq<Message>)
    requires all != [] && OneReadEach(all)
    ensures var n := |all| - 1;
      && OneReadEach(all[..n]) && !all[n].ReadConfig?
      && (all[n].Get? ==> all[n].from !in Askers(all[..n]))
  {
    var n := |all| - 1;
    assert forall m :: m in all[..n] ==> m in all;
    assert all[n] in all;
    AskersAre(all[..n], all[n].from);
  }

  lemma {:induction false} Length(all: seq<Message>)
    requires OneReadEach(all)
    ensures |all| == |Changes(all)| + |Askers(all)|
  {
    if all != [] {
      InitFits(all);
      Length(all[..|all| - 1]);
    }
  }

  /** The reads of a caller that sets are behind every new state. */
  ghost predicate NoStateBehind(all: seq<Message>, c: nat) {
    forall i, j :: 0 <= i < j < |all| && all[i].Get? && all[i].from == c ==> !all[j].Set?
  }

  /** What holds of the callers and the channel in every run. */
  ghost predicate Fits(callers: Callers, sys: System) {
    var all, changes := sys.daemon.all, Changes(sys.daemon.all);
    && OneReadEach(all)
    && (changes == [] || changes == [S] || changes == [W] || changes == [W, S])
    && (forall c :: c in sys.readers ==> c < callers.All())
    && match sys.setter
       case None => Askers(all) == sys.readers
       case Some(Setter(c, progress)) =>
         && sys.readers == {} && c < callers.setters
         && match progress
            case Reading => Askers(all) == {c} && NoStateBehind(all, c)
            case HasRead => Askers(all) == {} && S !in changes
            case Sending => Askers(all) == {}
  }

  lemma PostFits(all: seq<Message>, m: Message)
    requires OneReadEach(all) && !m.ReadConfig? && (m.Get? ==> m.from !in Askers(all))
    ensures OneReadEach(all + [m])
  {
    if m.Get? {
      AskersAre(all, m.from);
    }
  }

  lemma ReadFits(callers: Callers, sys: System, c: nat)
    requires Fits(callers, sys) && MayMove(callers, sys, Read(c))
    ensures Fits(callers, Do(callers, sys, Read(c)))
  {
    PostFits(sys.daemon.all, Get(c, 0));
    ChangesAppend(sys.daemon.all, Get(c, 0));
  }

  lemma SetterReadFits(callers: Callers, sys: System, c: nat)
    requires Fits(callers, sys) && c < callers.setters
    requires sys.readers == {} && Askers(sys.daemon.all) == {}
    ensures Fits(callers, Post(sys, Get(c, 0)).(setter := Some(Setter(c, Reading))))
  {
    PostFits(sys.daemon.all, Get(c, 0));
    ChangesAppend(sys.daemon.all, Get(c, 0));
    AskersAre(sys.daemon.all, c);
  }

  lemma ChangeFits(callers: Callers, sys: System, state: SessionState)
    requires Fits(callers, sys) && MayMove(callers, sys, Change(state))
    ensures Fits(callers, Do(callers, sys, Change(state)))
  {
    var m := Set(sys.setter.value.caller, state);
    PostFits(sys.daemon.all, m);
    ChangesAppend(sys.daemon.all, m);
  }

  lemma CallFits(callers: Callers, sys: System, m: Move)
    requires Fits(callers, sys) && MayMove(callers, sys, m) && !m.Round?
    ensures Fits(callers, Do(callers, sys, m))
  {
    match m {
      case Read(c) => ReadFits(callers, sys, c);
      case Begin(c) => SetterReadFits(callers, sys, c);
      case ReadAgain => SetterReadFits(callers, sys, sys.setter.value.caller);
      case Change(state) => ChangeFits(callers, sys, state);
      case _ =>
    }
  }

  /** Without a new state in the channel there is none among the changes. */
  lemma {:induction false} NoStateNoChange(all: seq<Message>)
    requires forall i :: 0 <= i < |all| ==> !all[i].Set?
    ensures S !in Changes(all)
  {
    if all != [] {
      NoStateNoChange(all[..|all| - 1]);
    }
  }

  lemma RestFits(all: seq<Message>)
    requires all != [] && OneReadEach(all)
    ensures OneReadEach(all[1..])
    ensures all[0].Get? ==> all[0].from !in Askers(all[1..])
  {
    assert forall m :: m in all[1..] ==> m in all;
    AskersAre(all[1..], all[0].from);
  }

  lemma StateReplaced(all: seq<Message>)
    requires all != [] && all[0].Set? && OneReadEach(all)
    ensures var all1 := all[1..] + [WriteState(all[0].from)];
      && OneReadEach(all1) && Askers(all1) == Askers(all)
      && Changes(all) == [S] + Changes(all[1..]) && Changes(all1) == Changes(all[1..]) + [W]
  {
    ChangesFirst(all);
    RestFits(all);
    PostFits(all[1..], WriteState(all[0].from));
    ChangesAppend(all[1..], WriteState(all[0].from));
  }

  lemma NoStateBehindStays(all: seq<Message>, c: nat, m: Message)
    requires all != [] && NoStateBehind(all, c) && m.WriteState?
    ensures NoStateBehind(all[1..] + [m], c)
  {
  }

  /** Handling the oldest message, unless that blocks the daemon. */
  lemma StateHandled(callers: Callers, sys: System, written: bool)
    requires Fits(callers, sys) && MayMove(callers, sys, Round(written)) && sys.daemon.all[0].Set?
    requires |sys.daemon.all| <= CAPACITY
    ensures Fits(callers, Do(callers, sys, Round(written)))
  {
    var all := sys.daemon.all;
    StateReplaced(all);
    assert Changes(all)[0] == S && Changes(all)[1..] == Changes(all[1..]);
    if sys.setter.Some? && sys.setter.value.progress.Reading? {
      NoStateBehindStays(all, sys.setter.value.caller, WriteState(all[0].from));
    }
  }

  lemma ReadTaken(all: seq<Message>)
    requires all != [] && all[0].Get? && OneReadEach(all)
    ensures OneReadEach(all[1..]) && Changes(all[1..]) == Changes(all)
    ensures Askers(all[1..]) == Askers(all) - {all[0].from}
  {
    ChangesFirst(all);
    RestFits(all);
    assert [] + Changes(all[1..]) == Changes(all[1..]);
  }

  lemma GetterAnswered(callers: Callers, sys: System, written: bool)
    requires Fits(callers, sys) && MayMove(callers, sys, Round(written))
    requires sys.daemon.all[0].Get? && sys.setter.None?
    ensures Fits(callers, Do(callers, sys, Round(written)))
  {
    ReadTaken(sys.daemon.all);
  }

  lemma SetterAnswered(callers: Callers, sys: System, written: bool)
    requires Fits(callers, sys) && MayMove(callers, sys, Round(written))
    requires sys.daemon.all[0].Get? && sys.setter.Some?
    ensures Fits(callers, Do(callers, sys, Round(written)))
  {
    var all := sys.daemon.all;
    ReadTaken(all);
    AskersAre(all, all[0].from);
    NoStateNoChange(all[1..]);
  }

  lemma WriteHandled(callers: Callers, sys: System, written: bool)
    requires Fits(callers, sys) && MayMove(callers, sys, Round(written)) && sys.daemon.all[0].WriteState?
    ensures Fits(callers, Do(callers, sys, Round(written)))
  {
    var all := sys.daemon.all;
    ChangesFirst(all);
    RestFits(all);
    assert Changes(all)[0] == W && Changes(all)[1..] == Changes(all[1..]);
  }

  /** When a new state is at the head, only reads are behind it, one for each caller at
      most. */
  lemma FewBehindAState(callers: Callers, sys: System)
    requires Fits(callers, sys) && sys.daemon.all != [] && sys.daemon.all[0].Set?
    ensures callers.setters > 0 ==> |sys.daemon.all| <= 1 + callers.All()
  {
    var all := sys.daemon.all;
    ChangesFirst(all);
    Length(all);
    assert Changes(all)[0] == S;
    AtMost(Askers(all), callers.All());
  }

  lemma {:induction false} AtMost(cs: set<nat>, k: nat)
    requires forall c :: c in cs ==> c < k
    ensures |cs| <= k
  {
    if k > 0 {
      AtMost(cs - {k - 1}, k - 1);
      assert cs <= cs - {k - 1} + {k - 1};
      assert k - 1 in cs ==> cs == cs - {k - 1} + {k - 1};
      assert k - 1 !in cs ==> cs == cs - {k - 1};
    } else {
      assert cs == {};
    }
  }

  /** With nobody to set there is no new state. */
  ghost predicate NoStates(callers: Callers, sys: System) {
    callers.setters == 0 ==> forall m :: m in sys.daemon.all ==> m.Get?
  }

  lemma MoveHasNoStates(callers: Callers, sys: System, m: Move)
    requires Fits(callers, sys) && NoStates(callers, sys) && MayMove(callers, sys, m)
    ensures NoStates(callers, Do(callers, sys, m))
  {
    if m.Round? {
      assert sys.daemon.all[0] in sys.daemon.all;
    }
  }

  /** Nothing is blocked. */
  ghost predicate Flows(callers: Callers, sys: System) {
    Fits(callers, sys) && NoStates(callers, sys) && !sys.daemon.status.Stuck?
  }

  lemma MoveFlows(callers: Callers, sys: System, m: Move)
    requires callers.setters == 0 || callers.All() <= CAPACITY - 1
    requires Flows(callers, sys) && MayMove(callers, sys, m)
    ensures Flows(callers, Do(callers, sys, m))
  {
    MoveHasNoStates(callers, sys, m);
    if m.Round? {
      assert sys.daemon.all[0] in sys.daemon.all;
      match sys.daemon.all[0] {
        case Set(_, _) =>
          FewBehindAState(callers, sys);
          StateHandled(callers, sys, m.written);
        case Get(_, _) =>
          if sys.setter.None? {
            GetterAnswered(callers, sys, m.written);
          } else {
            SetterAnswered(callers, sys, m.written);
          }
        case WriteState(_) => WriteHandled(callers, sys, m.written);
      }
    } else {
      CallFits(callers, sys, m);
    }
  }

  /** A setter's new state is accepted at once. */
  lemma AcceptedAtOnce(callers: Callers, sys: System)
    requires Fits(callers, sys) && sys.setter.Some? && sys.setter.value.progress.Sending?
    ensures MayMove(callers, sys, Accepted)
  {
    Length(sys.daemon.all);
  }

  /** In every run of callers few enough, the daemon never blocks on its own channel. */
  lemma {:induction false} FewCallersNeverBlock(callers: Callers, state: SessionState, moves: Moves)
    requires callers.setters == 0 || callers.All() <= CAPACITY - 1
    requires Can(callers, state, moves)
    ensures Flows(callers, After(callers, state, moves))
    decreases |moves|
  {
    if moves != [] {
      var n := |moves| - 1;
      FewCallersNeverBlock(callers, state, moves[..n]);
      MoveFlows(callers, After(callers, state, moves[..n]), moves[n]);
    }
  }

  // ----- more callers can block it -----

  lemma Extend(callers: Callers, state: SessionState, moves: Moves, m: Move)
    requires Can(callers, state, moves) && MayMove(callers, After(callers, state, moves), m)
    ensures Can(callers, state, moves + [m])
    ensures After(callers, state, moves + [m]) == Do(callers, After(callers, state, moves), m)
  {
    assert (moves + [m])[..|moves|] == moves;
  }

  /** The first caller sets a state, and the channel accepts it. */
  lemma StateSent(callers: Callers, state: SessionState) returns (moves: Moves)
    requires callers.setters > 0
    ensures Can(callers, state, moves)
    ensures After(callers, state, moves).daemon.all == [Set(0, state)]
    ensures var sys := After(callers, state, moves);
      sys.daemon.status.Running? && sys.readers == {} && sys.setter.None?
  {
    moves := [];
    Extend(callers, state, moves, Begin(0));
    moves := moves + [Begin(0)];
    assert After(callers, state, moves).daemon.all == [Get(0, 0)];
    Extend(callers, state, moves, Round(true));
    moves := moves + [Round(true)];
    assert After(callers, state, moves).daemon.all == [];
    Extend(callers, state, moves, Change(state));
    moves := moves + [Change(state)];
    assert After(callers, state, moves).daemon.all == [Set(0, state)];
    Extend(callers, state, moves, Accepted);
    moves := moves + [Accepted];
  }

  /** Then `k` callers read. */
  lemma {:induction false} StateThenReads(callers: Callers, state: SessionState, k: nat) returns (moves: Moves)
    requires callers.setters > 0 && k <= callers.All()
    ensures Can(callers, state, moves)
    ensures var sys := After(callers, state, moves);
      && sys.daemon.all != [] && sys.daemon.all[0] == Set(0, state) && |sys.daemon.all| == 1 + k
      && sys.daemon.status.Running? && sys.setter.None? && forall c :: c in sys.readers ==> c < k
  {
    if k == 0 {
      moves := StateSent(callers, state);
    } else {
      moves := StateThenReads(callers, state, k - 1);
      Extend(callers, state, moves, Read(k - 1));
      moves := moves + [Read(k - 1)];
    }
  }

  /** Ten callers reading at once behind a new state block the daemon. */
  lemma BlockingRun(callers: Callers, state: SessionState) returns (moves: Moves)
    requires callers.setters > 0 && callers.All() >= CAPACITY
    ensures Can(callers, state, moves) && After(callers, state, moves).daemon.status.Stuck?
  {
    moves := StateThenReads(callers, state, CAPACITY);
    Extend(callers, state, moves, Round(true));
    moves := moves + [Round(true)];
  }

  ghost predicate NeverBlocks(callers: Callers, state: SessionState) {
    forall moves :: Can(callers, state, moves) ==> !After(callers, state, moves).daemon.status.Stuck?
  }

  /** How many callers the channel bears, exactly: no run blocks the daemon if nobody
      sets, or if there are at most nine callers; otherwise some run does. */
  lemma NeverBlocksIff(callers: Callers, state: SessionState)
    ensures NeverBlocks(callers, state) <==> callers.setters == 0 || callers.All() <= 9
  {
    if callers.setters == 0 || callers.All() <= CAPACITY - 1 {
      forall moves | Can(callers, state, moves)
        ensures !After(callers, state, moves).daemon.status.Stuck?
      {
        FewCallersNeverBlock(callers, state, moves);
      }
    } else {
      var moves := BlockingRun(callers, state);
    }
  }
}
