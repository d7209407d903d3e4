/**
 Remote implementations of D-Bus interfaces: the code that the `remote` and
 `RemoteManager` macros generate, for interfaces with the default registration, and
 `register` in manager/user.rs.  A remote may fill a hole where no implementation is
 served, never replace one.
 */
module Registry {
  import opened Base

  type Name = string

  /** Where a remote lives: bus name and object path. */
  datatype Target = Target(destination: string, path: string)

  /** An owner object in its slot.  A task of its own watches for its bus name to come
      and go, until one of the calls it makes fails. */
  datatype Owner = Owner(target: Target, transient: bool, registered: bool, watched: bool)

  datatype State = State(
    slots: map<Name, Owner>,
    local: set<Name>,               // interfaces the daemon serves itself
    remote: map<Name, Target>)      // Remote objects it serves

  datatype Ping = Alive | Gone | Broken

  /** Outcomes of the calls made while an owner registers. */
  datatype Answers = Answers(ping: Ping, proxy: bool, at: bool)

  datatype Outcome = Fine(placed: bool) | Absent | Failed

  datatype Event =
    | Register(name: Name, target: Target, transient: bool, created: bool, answers: Answers)
    // The watched bus name got or lost its owner; `followed` is whether the rest of the
    // call, relaying signals and announcing the change, goes well.
    | Load(name: Name, answers: Answers, followed: bool)
    | Unload(name: Name, removed: bool, followed: bool)
    | Unregister(name: Name, sender: Option<string>, transient: bool, removed: bool)
    | Serve(name: Name)                                                    // a local object is placed
    | Withdraw(name: Name)                                                 // or taken back

  // ----- one call, as a function of the state -----

  /** The generated owner's `register`. */
  function OwnerRegister(s: State, name: Name, owner: Owner, a: Answers): (State, Owner, Outcome) {
    if !owner.transient && a.ping.Gone? then (s, owner, Absent)
    else if !owner.transient && a.ping.Broken? then (s, owner, Failed)
    else if !a.proxy then (s, owner, Failed)
    else if name in s.local || name in s.remote then (s, owner, Fine(false))
    else if !a.at then (s, owner, Failed)
    else (s.(remote := s.remote[name := owner.target]), owner.(registered := true), Fine(true))
  }

  function Step(known: set<Name>, s: State, e: Event): State {
    if e.name !in known then s
    else
      match e
      case Register(name, target, transient, created, a) =>
        if name in s.slots then
          var (s1, owner, _) := OwnerRegister(s, name, s.slots[name], a);
          s1.(slots := s1.slots[name := owner])
        else if !created then s
        else
          var (s1, owner, outcome) := OwnerRegister(s, name, Owner(target, transient, false, true), a);
          if outcome.Failed? then s1 else s1.(slots := s1.slots[name := owner])
      case Load(name, a, followed) =>
        if name !in s.slots || !s.slots[name].watched then s
        else
          var (s1, owner, outcome) := OwnerRegister(s, name, s.slots[name], a);
          s1.(slots := s1.slots[name := owner.(watched := !outcome.Failed? && followed)])
      case Unload(name, removed, followed) =>
        if name !in s.slots || !s.slots[name].watched then s
        else
          var owner := s.slots[name];
          if !removed then s.(slots := s.slots[name := owner.(watched := false)])
          else if owner.transient then State(s.slots - {name}, s.local, s.remote - {name})
          else State(s.slots[name := owner.(registered := false, watched := followed)], s.local, s.remote - {name})
      case Unregister(name, sender, transient, removed) =>
        if name !in s.slots || Denied(s, name, sender) || !removed then s
        else
          var owner := s.slots[name];
          State(
            if !transient || owner.transient then s.slots - {name}
            else s.slots[name := owner.(registered := false)],
            s.local,
            s.remote - {name})
      case Serve(name) => if name in s.remote then s else s.(local := s.local + {name})
      case Withdraw(name) => s.(local := s.local - {name})
  }

  predicate Denied(s: State, name: Name, sender: Option<string>) {
    sender.Some? && name in s.slots && s.slots[name].target.destination != sender.value
  }

  function Run(known: set<Name>, trace: seq<Event>): State
    decreases |trace|
  {
    if trace == [] then State(map[], {}, map[])
    else Step(known, Run(known, trace[..|trace| - 1]), trace[|trace| - 1])
  }

  /** `remote_interfaces` */
  function Listed(s: State): set<Name> { set n | n in s.slots && s.slots[n].registered }

  // ----- the objects -----

  class ObjectServer {
    var local: set<Name>
    var remote: map<Name, Target>

    constructor ()
      ensures local == {} && remote == map[]
    {
      local, remote := {}, map[];
    }

    /** `at` never replaces an interface of the same name. */
    method Serve(name: Name)
      modifies this
      ensures remote == old(remote)
      ensures local == if name in old(remote) then old(local) else old(local) + {name}
    {
      if name !in remote {
        local := local + {name};
      }
    }

    method Withdraw(name: Name)
      modifies this
      ensures remote == old(remote) && local == old(local) - {name}
    {
      local := local - {name};
    }

    /** `register` in manager/user.rs: `None` is an error of `at`. */
    method Register(name: Name, target: Target, at: bool) returns (placed: Option<bool>)
      modifies this
      ensures local == old(local)
      ensures placed == if name in old(local) || name in old(remote) then Some(false) else if at then Some(true) else None
      ensures remote == if placed == Some(true) then old(remote)[name := target] else old(remote)
    {
      if name in local { return Some(false); }
      if name in remote { return Some(false); }
      if !at { return None; }
      remote := remote[name := target];
      return Some(true);
    }

    method Remove(name: Name, removed: bool)
      modifies this
      ensures local == old(local)
      ensures remote == if removed then old(remote) - {name} else old(remote)
    {
      if removed {
        remote := remote - {name};
      }
    }
  }

  class RemoteManager {
    const known: set<Name>
    const server: ObjectServer
    var slots: map<Name, Owner>

    ghost function Now(): State
      reads this, server
    {
      State(slots, server.local, server.remote)
    }

    constructor (known: set<Name>)
      ensures Now() == State(map[], {}, map[]) && this.known == known && fresh(server)
    {
      this.known := known;
      slots := map[];
      server := new ObjectServer();
    }

    method RegisterOwner(name: Name, owner: Owner, a: Answers) returns (owner': Owner, outcome: Outcome)
      modifies server
      ensures (Now(), owner', outcome) == OwnerRegister(old(Now()), name, owner, a)
    {
      if !owner.transient {
        if a.ping.Gone? { return owner, Absent; }
        if a.ping.Broken? { return owner, Failed; }
      }
      if !a.proxy { return owner, Failed; }
      var placed := server.Register(name, owner.target, a.at);
      if placed.None? { return owner, Failed; }
      if !placed.value { return owner, Fine(false); }
      return owner.(registered := true), Fine(true);
    }

    method Register(name: Name, target: Target, transient: bool, created: bool, a: Answers)
      modifies this, server
      ensures Now() == Step(known, old(Now()), Event.Register(name, target, transient, created, a))
    {
      if name !in known { return; }
      if name in slots {
        var owner, _ := RegisterOwner(name, slots[name], a);
        slots := slots[name := owner];
      } else {
        if !created { return; }
        var owner, outcome := RegisterOwner(name, Owner(target, transient, false, true), a);
        if outcome.Failed? { return; }
        slots := slots[name := owner];
      }
    }

    /** `load`, as the owner's task calls it. */
    method Load(name: Name, a: Answers, followed: bool)
      modifies this, server
      ensures Now() == Step(known, old(Now()), Event.Load(name, a, followed))
    {
      if name !in known || name !in slots || !slots[name].watched { return; }
      var owner, outcome := RegisterOwner(name, slots[name], a);
      slots := slots[name := owner.(watched := !outcome.Failed? && followed)];
    }

    /** `unload`, as the owner's task calls it. */
    method Unload(name: Name, removed: bool, followed: bool)
      modifies this, server
      ensures Now() == Step(known, old(Now()), Event.Unload(name, removed, followed))
    {
      if name !in known || name !in slots || !slots[name].watched { return; }
      var owner := slots[name];
      server.Remove(name, removed);
      if !removed {
        slots := slots[name := owner.(watched := false)];
      } else if owner.transient {
        slots := slots - {name};
      } else {
        slots := slots[name := owner.(registered := false, watched := followed)];
      }
    }

    method Unregister(name: Name, sender: Option<string>, transient: bool, removed: bool)
      modifies this, server
      ensures Now() == Step(known, old(Now()), Event.Unregister(name, sender, transient, removed))
    {
      if name !in known || name !in slots { return; }
      var owner := slots[name];
      if sender.Some? && owner.target.destination != sender.value { return; }
      server.Remove(name, removed);
      if !removed { return; }
      if !transient || owner.transient {
        slots := slots - {name};
      } else {
        slots := slots[name := owner.(registered := false)];
      }
    }
  }

  // ----- what the registry keeps -----

  /** A remote object is served for a name exactly when its slot holds a registered
      owner, it leads to that owner's target, and never beside a local object. */
  ghost predicate Good(s: State) {
    && (forall n :: n in s.remote <==> n in s.slots && s.slots[n].registered)
    && (forall n :: n in s.remote ==> s.remote[n] == s.slots[n].target && n !in s.local)
  }

  lemma RegisteringKeepsGood(s: State, name: Name, owner: Owner, a: Answers)
    requires Good(s)
    requires if name in s.slots then owner == s.slots[name] else !owner.registered
    ensures var (s1, owner', outcome) := OwnerRegister(s, name, owner, a);
      && Good(s1.(slots := s1.slots[name := owner']))
      && (outcome.Failed? ==> s1 == s)
  {
  }

  lemma StepKeepsGood(known: set<Name>, s: State, e: Event)
    requires Good(s)
    ensures Good(Step(known, s, e))
  {
    match e {
      case Register(name, target, transient, _, a) =>
        RegisteringKeepsGood(s, name, if name in s.slots then s.slots[name] else Owner(target, transient, false, true), a);
      case Load(name, a, _) =>
        if name in s.slots {
          RegisteringKeepsGood(s, name, s.slots[name], a);
        }
      case _ =>
    }
  }

  /** Over every run the registry is good, and the listing shows exactly the names for
      which a remote object is served. */
  lemma {:induction false} ListingIsWhatIsServed(known: set<Name>, trace: seq<Event>)
    ensures Good(Run(known, trace))
    ensures Listed(Run(known, trace)) == Run(known, trace).remote.Keys
    decreases |trace|
  {
    if trace != [] {
      ListingIsWhatIsServed(known, trace[..|trace| - 1]);
      StepKeepsGood(known, Run(known, trace[..|trace| - 1]), trace[|trace| - 1]);
    }
  }

  /** An object served stays served and leads to the same place until its own remote,
      or the daemon itself, unregisters it: no registration displaces it, and nobody
      else can take it away. */
  lemma {:induction false} ServedUntilUnregistered(known: set<Name>, trace: seq<Event>, more: seq<Event>, name: Name)
    requires name in Run(known, trace).remote
    requires forall i :: 0 <= i < |more| ==>
      more[i].name == name ==>
        && !more[i].Unload?
        && (more[i].Unregister? ==>
             more[i].sender.Some? && more[i].sender.value != Run(known, trace).remote[name].destination)
    ensures name in Run(known, trace + more).remote
    ensures Run(known, trace + more).remote[name] == Run(known, trace).remote[name]
    decreases |more|
  {
    if more == [] {
      assert trace + more == trace;
    } else {
      var n := |more| - 1;
      assert (trace + more)[..|trace + more| - 1] == trace + more[..n];
      ServedUntilUnregistered(known, trace, more[..n], name);
      ListingIsWhatIsServed(known, trace + more[..n]);
      assert more[n] == (trace + more)[|trace + more| - 1];
    }
  }

  /** A local object stays served, and no remote one beside it, whatever remotes do, until
      the daemon takes it back. */
  lemma {:induction false} LocalStays(known: set<Name>, trace: seq<Event>, more: seq<Event>, name: Name)
    requires name in Run(known, trace).local
    requires forall i :: 0 <= i < |more| && more[i].name == name ==> !more[i].Withdraw?
    ensures name in Run(known, trace + more).local && name !in Run(known, trace + more).remote
    decreases |more|
  {
    ListingIsWhatIsServed(known, trace + more);
    if more == [] {
      assert trace + more == trace;
    } else {
      var n := |more| - 1;
      assert (trace + more)[..|trace + more| - 1] == trace + more[..n];
      LocalStays(known, trace, more[..n], name);
    }
  }

  /** Only known interfaces are ever registered or served. */
  lemma {:induction false} OnlyKnownNames(known: set<Name>, trace: seq<Event>)
    ensures var s := Run(known, trace);
      s.slots.Keys <= known && s.local <= known && s.remote.Keys <= known
    decreases |trace|
  {
    if trace != [] {
      OnlyKnownNames(known, trace[..|trace| - 1]);
    }
  }

  /** A slot is never taken over: while it is held it is held by the same owner, at the
      same place. */
  lemma OwnerStays(known: set<Name>, trace: seq<Event>, e: Event, name: Name)
    ensures var s, s1 := Run(known, trace), Run(known, trace + [e]);
      name in s.slots && name in s1.slots ==>
        s1.slots[name].target == s.slots[name].target && s1.slots[name].transient == s.slots[name].transient
  {
    assert (trace + [e])[..|trace|] == trace;
  }

  /** An unregistration by anybody but the owner is denied and changes nothing, served or
      not; one whose removal fails changes nothing either. */
  lemma DeniedChangesNothing(known: set<Name>, s: State, name: Name, sender: string, transient: bool, removed: bool)
    requires name in s.slots
    ensures s.slots[name].target.destination != sender || !removed ==>
      Step(known, s, Unregister(name, Some(sender), transient, removed)) == s
  {
  }

  /** A permitted unregistration gives up the slot, unless it is meant to be transient and
      the owner is configured; either way nothing is served any more. */
  lemma SlotGivenUpIff(known: set<Name>, s: State, name: Name, sender: Option<string>, transient: bool)
    requires name in known && name in s.slots
    requires sender.Some? ==> sender.value == s.slots[name].target.destination
    ensures var s1 := Step(known, s, Unregister(name, sender, transient, true));
      && (name in s1.slots <==> transient && !s.slots[name].transient)
      && name !in s1.remote && name !in Listed(s1)
  {
  }

  /** The events that concern a name. */
  function About(trace: seq<Event>, name: Name): seq<Event> {
    if trace == [] then []
    else About(trace[..|trace| - 1], name) + if trace[|trace| - 1].name == name then [trace[|trace| - 1]] else []
  }

  /** What a state holds for a name. */
  ghost predicate Alike(s: State, s1: State, name: Name) {
    && (name in s.slots <==> name in s1.slots)
    && (name in s.slots ==> s.slots[name] == s1.slots[name])
    && (name in s.local <==> name in s1.local)
    && (name in s.remote <==> name in s1.remote)
    && (name in s.remote ==> s.remote[name] == s1.remote[name])
  }

  lemma StepAlike(known: set<Name>, s: State, s1: State, e: Event)
    requires Alike(s, s1, e.name)
    ensures Alike(Step(known, s, e), Step(known, s1, e), e.name)
  {
  }

  lemma StepElsewhere(known: set<Name>, s: State, e: Event, name: Name)
    requires name != e.name
    ensures Alike(s, Step(known, s, e), name)
  {
  }

  /** Names never affect each other: what a run leaves for a name is what the events
      about that name alone leave for it. */
  lemma {:induction false} NamesAreIndependent(known: set<Name>, trace: seq<Event>, name: Name)
    ensures Alike(Run(known, trace), Run(known, About(trace, name)), name)
    decreases |trace|
  {
    if trace != [] {
      var n := |trace| - 1;
      var own := About(trace[..n], name);
      NamesAreIndependent(known, trace[..n], name);
      if trace[n].name == name {
        assert (own + [trace[n]])[..|own|] == own;
        StepAlike(known, Run(known, trace[..n]), Run(known, own), trace[n]);
      } else {
        assert About(trace, name) == own;
        StepElsewhere(known, Run(known, trace[..n]), trace[n], name);
      }
    }
  }

  /** An event that places a remote object: a working registration, by an owner that is
      transient or answers the ping, where no local object is served. */
  predicate Places(known: set<Name>, s: State, e: Event, name: Name) {
    && e.name == name && name in known && name !in s.local
    && match e
       case Register(_, _, transient, created, a) =>
         && a.proxy && a.at && (name in s.slots || created)
         && ((if name in s.slots then s.slots[name].transient else transient) || a.ping.Alive?)
       case Load(_, a, _) =>
         name in s.slots && s.slots[name].watched && a.proxy && a.at && (s.slots[name].transient || a.ping.Alive?)
       case _ => false
  }

  /** An event that takes it away: its own remote or the daemon unregisters it, or its
      watched bus name goes, and the object server lets go of it. */
  predicate TakesAway(s: State, e: Event, name: Name) {
    e.name == name &&
    match e
    case Unregister(_, sender, _, removed) => removed && !Denied(s, name, sender)
    case Unload(_, removed, _) => removed && name in s.slots && s.slots[name].watched
    case _ => false
  }

  lemma StepServesIff(known: set<Name>, s: State, e: Event, name: Name)
    requires Good(s) && name in known
    ensures name in Step(known, s, e).remote <==>
      Places(known, s, e, name) || (name in s.remote && !TakesAway(s, e, name))
  {
  }

  ghost predicate PlacedLast(known: set<Name>, trace: seq<Event>, name: Name, i: nat) {
    && i < |trace| && Places(known, Run(known, trace[..i]), trace[i], name)
    && forall j :: i < j < |trace| ==> !TakesAway(Run(known, trace[..j]), trace[j], name)
  }

  lemma PlacedEarlier(known: set<Name>, trace: seq<Event>, name: Name, i: nat)
    requires i + 1 < |trace|
    ensures var n := |trace| - 1;
      PlacedLast(known, trace, name, i) <==>
        PlacedLast(known, trace[..n], name, i) && !TakesAway(Run(known, trace[..n]), trace[n], name)
  {
    var before := trace[..|trace| - 1];
    assert forall j :: 0 <= j <= |before| ==> before[..j] == trace[..j];
  }

  lemma PlacedOneMore(known: set<Name>, trace: seq<Event>, name: Name)
    requires trace != []
    ensures var n := |trace| - 1;
      (exists i :: PlacedLast(known, trace, name, i)) <==>
        Places(known, Run(known, trace[..n]), trace[n], name) ||
        ((exists i :: PlacedLast(known, trace[..n], name, i)) && !TakesAway(Run(known, trace[..n]), trace[n], name))
  {
    var n := |trace| - 1;
    if i: nat :| PlacedLast(known, trace, name, i) {
      if i < n {
        PlacedEarlier(known, trace, name, i);
      }
    }
    if Places(known, Run(known, trace[..n]), trace[n], name) {
      assert PlacedLast(known, trace, name, n);
    }
    if i: nat :| PlacedLast(known, trace[..n], name, i) {
      PlacedEarlier(known, trace, name, i);
    }
  }

  /** Over every run, exactly when a remote object is served for a name: when some
      registration placed it and no permitted unregistration has come since. */
  lemma {:induction false} ServedIff(known: set<Name>, trace: seq<Event>, name: Name)
    requires name in known
    ensures name in Run(known, trace).remote <==> exists i :: PlacedLast(known, trace, name, i)
    decreases |trace|
  {
    if trace != [] {
      var n := |trace| - 1;
      ServedIff(known, trace[..n], name);
      PlacedOneMore(known, trace, name);
      ListingIsWhatIsServed(known, trace[..n]);
      StepServesIff(known, Run(known, trace[..n]), trace[n], name);
    }
  }

  /** Nothing in these events takes the slot of a configured remote or serves the name
      locally: its bus name may come and go, other senders may try to unregister it, and
      other remotes to register. */
  ghost predicate LeavesSlot(events: seq<Event>, name: Name, target: Target) {
    forall i :: 0 <= i < |events| && events[i].name == name ==>
      && !events[i].Serve?
      && (events[i].Unregister? ==>
           events[i].transient || (events[i].sender.Some? && events[i].sender.value != target.destination))
  }

  /** A load or unload of a configured owner fails, which ends the task that watches for
      its bus name. */
  predicate EndsWatch(s: State, e: Event, name: Name) {
    e.name == name &&
    match e
    case Load(_, a, followed) =>
      || a.ping.Broken?
      || (a.ping.Alive? && (!a.proxy || (name !in s.local && name !in s.remote && !a.at)))
      || !followed
    case Unload(_, removed, followed) => !removed || !followed
    case _ => false
  }

  ghost predicate NoneEndsWatch(known: set<Name>, trace: seq<Event>, more: seq<Event>, name: Name)
    decreases |more|
  {
    more == [] ||
    (var n := |more| - 1;
     NoneEndsWatch(known, trace, more[..n], name) && !EndsWatch(Run(known, trace + more[..n]), more[n], name))
  }

  /** The slot holds a configured owner with this target where no local object is served. */
  predicate Holds(s: State, name: Name, target: Target) {
    name !in s.local && name in s.slots && s.slots[name].target == target && !s.slots[name].transient
  }

  lemma StepHolds(known: set<Name>, s: State, e: Event, name: Name, target: Target)
    requires name in known && Holds(s, name, target) && LeavesSlot([e], name, target)
    ensures var s1 := Step(known, s, e);
      && Holds(s1, name, target)
      && (s1.slots[name].watched <==> s.slots[name].watched && !EndsWatch(s, e, name))
  {
    assert [e][0] == e;
  }

  lemma {:induction false} SlotStays(known: set<Name>, trace: seq<Event>, more: seq<Event>, name: Name, target: Target)
    requires name in known && LeavesSlot(more, name, target)
    requires Holds(Run(known, trace), name, target) && Run(known, trace).slots[name].watched
    ensures Holds(Run(known, trace + more), name, target)
    ensures Run(known, trace + more).slots[name].watched <==> NoneEndsWatch(known, trace, more, name)
    decreases |more|
  {
    if more == [] {
      assert trace + more == trace;
    } else {
      var n := |more| - 1;
      assert (trace + more)[..|trace + more| - 1] == trace + more[..n];
      assert (trace + more)[|trace + more| - 1] == more[n];
      SlotStays(known, trace, more[..n], name, target);
      StepHolds(known, Run(known, trace + more[..n]), more[n], name, target);
    }
  }

  /** A configured remote that is not on the bus yet is not listed but keeps its slot.
      When its bus name appears, however much later, it is served at its target exactly
      when it was served already or no load or unload has failed since. */
  lemma ServedOnceItAppearsIff(known: set<Name>, trace: seq<Event>, name: Name, target: Target, a: Answers,
        more: seq<Event>, followed: bool)
    requires name in known && a.ping.Gone? && LeavesSlot(more, name, target)
    requires name !in Run(known, trace).slots && name !in Run(known, trace).local
    ensures var t1 := trace + [Register(name, target, false, true, a)];
      var s := Run(known, t1 + more);
      var s1 := Run(known, t1 + more + [Load(name, Answers(Alive, true, true), followed)]);
      && name !in Listed(Run(known, t1))
      && (name in Listed(s1) <==> name in s.remote || NoneEndsWatch(known, t1, more, name))
      && (name in Listed(s1) ==> name in s1.remote && s1.remote[name] == target)
  {
    var t1 := trace + [Register(name, target, false, true, a)];
    assert t1[..|t1| - 1] == trace;
    SlotStays(known, t1, more, name, target);
    var t2 := t1 + more + [Load(name, Answers(Alive, true, true), followed)];
    assert t2[..|t2| - 1] == t1 + more;
    ListingIsWhatIsServed(known, t1);
    ListingIsWhatIsServed(known, t1 + more);
    ListingIsWhatIsServed(known, t2);
  }

  /** A bus name that appears and is gone again before the ping is enough: what is not
      served cannot be removed, so the unload fails, and nothing watches for the name any
      more when the remote comes to stay. */
  lemma VanishingEndsWatch(name: Name, target: Target, trace: seq<Event>)
    requires trace == [
      Register(name, target, false, true, Answers(Gone, true, true)),
      Load(name, Answers(Gone, true, true), true),
      Unload(name, false, true),
      Load(name, Answers(Alive, true, true), true)]
    ensures name !in Run({name}, trace[..2]).remote
    ensures name !in Run({name}, trace).remote
  {
    assert trace[..3][..2] == trace[..2] && trace[..2][..1] == trace[..1] && trace[..1][..0] == [];
    assert Run({name}, trace[..1]) == State(map[name := Owner(target, false, false, true)], {}, map[]);
    assert Run({name}, trace[..2]) == State(map[name := Owner(target, false, false, true)], {}, map[]);
    assert Run({name}, trace[..3]) == State(map[name := Owner(target, false, false, false)], {}, map[]);
  }

  /** Registering leaves a slot that nothing is served for: the remote is not there, or
      the daemon serves the name itself. */
  predicate LeavesEmptySlot(s: State, name: Name, transient: bool, a: Answers) {
    || (!transient && a.ping.Gone?)
    || ((transient || a.ping.Alive?) && a.proxy && name in s.local)
  }

  /** A remote registers into an empty slot and then unregisters itself, or, being
      transient, drops off the bus; what is served, and nothing else, can be removed.
      That leaves the registry as it was except after a registration that left an empty
      slot, which its owner then keeps. */
  lemma LeavingUndoesRegisteringIff(known: set<Name>, s: State, name: Name, target: Target,
        transient: bool, a: Answers, leave: Event)
    requires Good(s) && name in known && name !in s.slots
    requires var removed := name in Step(known, s, Register(name, target, transient, true, a)).remote;
      || leave == Unregister(name, Some(target.destination), false, removed)
      || (transient && leave.Unload? && leave.name == name && leave.removed == removed)
    ensures Step(known, Step(known, s, Register(name, target, transient, true, a)), leave) == s
      <==> !LeavesEmptySlot(s, name, transient, a)
  {
    var s1 := Step(known, s, Register(name, target, transient, true, a));
    assert s1.slots - {name} == s.slots;
    assert s1.remote - {name} == s.remote;
  }

  /** A configured remote that drops off the bus and comes back while it is watched
      leaves no trace. */
  lemma ComingBackRestores(known: set<Name>, s: State, name: Name)
    requires Good(s) && name in known && name in s.remote
    requires !s.slots[name].transient && s.slots[name].watched
    ensures Step(known, Step(known, s, Unload(name, true, true)), Load(name, Answers(Alive, true, true), true)) == s
  {
    var s1 := Step(known, s, Unload(name, true, true));
    var s2 := Step(known, s1, Load(name, Answers(Alive, true, true), true));
    assert s2.slots == s.slots;
    assert s2.remote == s.remote;
  }
}
