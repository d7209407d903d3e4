/**
 The coalescing sysfs writer: `SysfsWriterQueue` and `SysfsWriterService`.

 Senders put a value for a path into a map, displacing an older value for the same
 path, and then notify; one receiver waits for a notification, takes an arbitrary
 entry and writes it.  `send` and `recv` are not atomic: each `Event` is one atomic
 step, and a trace is any interleaving of them.  A send is named by its position in
 the trace.
 */
module SysfsWriter {
  import opened Base

  type Path = string
  type Contents = string

  datatype Event =
    | Send(path: Path, contents: Contents)  // insert into the map, superseding an older entry
    | Notify                                // the notify_one that follows an insert
    | Poll                                  // the receiver calls notified() at the top of its loop
    | Take(path: Path)                      // lock the map and remove an entry
    | TakeNone                              // lock the map and find it empty
    | Finish(error: Option<string>)         // write_synced returned; the reply is sent

  datatype Entry = Entry(contents: Contents, id: nat)

  datatype Receiver =
    | Looping                               // about to call notified()
    | Waiting                               // registered as a waiter
    | Woken                                 // notified, before the lock
    | Writing(path: Path, entry: Entry)

  datatype Reply = Written(error: Option<string>) | Superseded

  datatype WriteRecord = WriteRecord(path: Path, entry: Entry)

  datatype State = State(
    clock: nat,                             // events so far
    values: map<Path, Entry>,
    notifying: nat,                         // senders between insert and notify
    permit: bool,                           // the one permit a Notify can store
    receiver: Receiver,
    replies: map<nat, Reply>,               // by send
    writes: seq<WriteRecord>)               // finished writes, oldest first

  const START := State(0, map[], 0, false, Looping, map[], [])

  predicate Enabled(s: State, e: Event) {
    match e
    case Send(_, _) => true
    case Notify => s.notifying > 0
    case Poll => s.receiver.Looping?
    case Take(path) => s.receiver.Woken? && path in s.values
    case TakeNone => s.receiver.Woken? && s.values == map[]
    case Finish(_) => s.receiver.Writing?
  }

  function Step(s: State, e: Event): State
    requires Enabled(s, e)
  {
    var s1 := s.(clock := s.clock + 1);
    match e
    case Send(path, contents) =>
      s1.(values := s.values[path := Entry(contents, s.clock)],
          replies := if path in s.values then s.replies[s.values[path].id := Superseded] else s.replies,
          notifying := s.notifying + 1)
    case Notify =>
      // A registered waiter is woken directly; otherwise one permit is stored.
      if s.receiver.Waiting? then s1.(notifying := s.notifying - 1, receiver := Woken)
      else s1.(notifying := s.notifying - 1, permit := true)
    case Poll => s1.(permit := false, receiver := if s.permit then Woken else Waiting)
    case Take(path) => s1.(values := s.values - {path}, receiver := Writing(path, s.values[path]))
    case TakeNone => s1.(receiver := Looping)
    case Finish(error) =>
      s1.(replies := s.replies[s.receiver.entry.id := Written(error)],
          writes := s.writes + [WriteRecord(s.receiver.path, s.receiver.entry)],
          receiver := Looping)
  }

  type Trace = seq<Event>

  predicate Possible(trace: Trace)
    decreases |trace|, 0
  {
    trace == [] ||
    (Possible(trace[..|trace| - 1]) && Enabled(Run(trace[..|trace| - 1]), trace[|trace| - 1]))
  }

  function Run(trace: Trace): State
    requires Possible(trace)
    decreases |trace|, 1
  {
    if trace == [] then START else Step(Run(trace[..|trace| - 1]), trace[|trace| - 1])
  }

  // ----- what should become of a send, read off the trace alone -----

  datatype Fate = Pending | InFlight | Answered(reply: Reply)

  /** How one later event changes the fate of a send to a path. */
  function Advance(fate: Fate, path: Path, e: Event): Fate {
    match (fate, e)
    case (Pending, Send(p, _)) => if p == path then Answered(Superseded) else fate
    case (Pending, Take(p)) => if p == path then InFlight else fate
    case (InFlight, Finish(error)) => Answered(Written(error))
    case _ => fate
  }

  predicate IsSend(trace: Trace, k: nat) { k < |trace| && trace[k].Send? }

  function FateOf(trace: Trace, k: nat): Fate
    requires IsSend(trace, k)
  {
    if k == |trace| - 1 then Pending
    else Advance(FateOf(trace[..|trace| - 1], k), trace[k].path, trace[|trace| - 1])
  }

  /** Where the queue has a send. */
  ghost predicate Shows(s: State, path: Path, entry: Entry, fate: Fate) {
    && (fate.Pending? <==> path in s.values && s.values[path] == entry)
    && (fate.InFlight? <==> s.receiver == Writing(path, entry))
    && (fate.Answered? <==> entry.id in s.replies)
    && (fate.Answered? ==> s.replies[entry.id] == fate.reply)
    && (fate.Answered? && fate.reply.Written? <==> WriteRecord(path, entry) in s.writes)
  }

  /** Everything the queue holds comes from a send of the trace. */
  ghost predicate Sourced(trace: Trace, path: Path, entry: Entry) {
    IsSend(trace, entry.id) && trace[entry.id] == Send(path, entry.contents)
  }

  ghost predicate AllSourced(trace: Trace, s: State) {
    && s.clock == |trace|
    && (forall p :: p in s.values ==> Sourced(trace, p, s.values[p]))
    && (s.receiver.Writing? ==> Sourced(trace, s.receiver.path, s.receiver.entry))
    && (forall w :: w in s.writes ==> Sourced(trace, w.path, w.entry))
    && (forall id :: id in s.replies ==> IsSend(trace, id))
  }

  lemma StepKeepsSources(trace: Trace, s: State)
    requires trace != [] && AllSourced(trace[..|trace| - 1], s) && Enabled(s, trace[|trace| - 1])
    ensures AllSourced(trace, Step(s, trace[|trace| - 1]))
  {
    var before := trace[..|trace| - 1];
    assert forall p, entry :: Sourced(before, p, entry) ==> Sourced(trace, p, entry);
    assert forall id :: IsSend(before, id) ==> IsSend(trace, id);
  }

  lemma {:induction false} RunIsSourced(trace: Trace)
    requires Possible(trace)
    ensures AllSourced(trace, Run(trace))
  {
    if trace != [] {
      RunIsSourced(trace[..|trace| - 1]);
      StepKeepsSources(trace, Run(trace[..|trace| - 1]));
    }
  }

  /** For every interleaving and every send, the queue is exactly where the trace says
      it should be: waiting until the path is sent to or taken, in flight until its
      write finishes, then answered once and for good.  So a send is superseded exactly
      when a later send to its path comes before it is taken. */
  lemma {:induction false} EverySendMeetsItsFate(trace: Trace, k: nat)
    requires Possible(trace) && IsSend(trace, k)
    ensures Shows(Run(trace), trace[k].path, Entry(trace[k].contents, k), FateOf(trace, k))
  {
    var n := |trace| - 1;
    var before := trace[..n];
    RunIsSourced(before);
    if k < n {
      EverySendMeetsItsFate(before, k);
      FateStep(before, Run(before), trace[n], k, FateOf(before, k));
    }
  }

  lemma FateStep(trace: Trace, s: State, e: Event, k: nat, fate: Fate)
    requires AllSourced(trace, s) && Enabled(s, e) && IsSend(trace, k)
    requires Shows(s, trace[k].path, Entry(trace[k].contents, k), fate)
    ensures Shows(Step(s, e), trace[k].path, Entry(trace[k].contents, k), Advance(fate, trace[k].path, e))
  {
  }

  predicate SentTo(trace: Trace, j: nat, path: Path) { IsSend(trace, j) && trace[j].path == path }

  /** Send `j` is to the path of send `k` and comes before `k` is taken. */
  ghost predicate Overtakes(trace: Trace, k: nat, j: nat)
    requires IsSend(trace, k)
  {
    && k < j && SentTo(trace, j, trace[k].path)
    && forall i :: k < i < j ==> trace[i] != Take(trace[k].path)
  }

  /** The fate of a send, said without counting events: superseded means overtaken,
      pending means neither overtaken nor taken. */
  lemma {:induction false} FateInWords(trace: Trace, k: nat)
    requires IsSend(trace, k)
    ensures FateOf(trace, k) == Answered(Superseded) <==> exists j :: Overtakes(trace, k, j)
    ensures FateOf(trace, k).Pending? <==>
      forall j :: k < j < |trace| ==> !SentTo(trace, j, trace[k].path) && trace[j] != Take(trace[k].path)
    decreases |trace|
  {
    var n := |trace| - 1;
    if k < n {
      var before := trace[..n];
      FateInWords(before, k);
      forall j | k < j < n
        ensures Overtakes(trace, k, j) <==> Overtakes(before, k, j)
      {
      }
      assert SentTo(trace, n, trace[k].path) <==> trace[n].Send? && trace[n].path == trace[k].path;
      assert forall j :: k < j < n ==> (SentTo(trace, j, trace[k].path) <==> SentTo(before, j, trace[k].path));
      if FateOf(before, k).Pending? && SentTo(trace, n, trace[k].path) {
        assert Overtakes(trace, k, n);
      }
      if Overtakes(trace, k, n) && !FateOf(before, k).Pending? {
        var j :| k < j < n && SentTo(before, j, trace[k].path);
        assert Overtakes(before, k, j);
      }
    }
  }

  // ----- conservation -----

  function Sends(trace: Trace): nat {
    if trace == [] then 0
    else Sends(trace[..|trace| - 1]) + if trace[|trace| - 1].Send? then 1 else 0
  }

  function SupersededIds(s: State): set<nat> {
    set id | id in s.replies && s.replies[id].Superseded?
  }

  function Flying(s: State): nat { if s.receiver.Writing? then 1 else 0 }

  ghost predicate Balanced(s: State, sends: nat) {
    && sends == |s.values| + Flying(s) + |SupersededIds(s)| + |s.writes|
    && |s.replies| == |SupersededIds(s)| + |s.writes|
  }

  lemma SendBalances(s: State, sends: nat, path: Path, contents: Contents)
    requires Balanced(s, sends)
    requires path in s.values ==> s.values[path].id !in s.replies
    ensures Balanced(Step(s, Send(path, contents)), sends + 1)
  {
    var s1 := Step(s, Send(path, contents));
    if path in s.values {
      assert SupersededIds(s1) == SupersededIds(s) + {s.values[path].id};
    } else {
      assert SupersededIds(s1) == SupersededIds(s);
    }
  }

  lemma TakeBalances(s: State, sends: nat, path: Path)
    requires Balanced(s, sends) && Enabled(s, Take(path))
    ensures Balanced(Step(s, Take(path)), sends)
  {
    var s1 := Step(s, Take(path));
    assert s.values == s1.values[path := s.values[path]];
    assert SupersededIds(s1) == SupersededIds(s);
  }

  lemma FinishBalances(s: State, sends: nat, error: Option<string>)
    requires Balanced(s, sends) && Enabled(s, Finish(error)) && s.receiver.entry.id !in s.replies
    ensures Balanced(Step(s, Finish(error)), sends)
  {
    assert SupersededIds(Step(s, Finish(error))) == SupersededIds(s);
  }

  /** Nothing waiting or in flight has been answered yet. */
  ghost predicate Unanswered(s: State) {
    && (forall p :: p in s.values ==> s.values[p].id !in s.replies)
    && (s.receiver.Writing? ==> s.receiver.entry.id !in s.replies)
  }

  lemma RunIsUnanswered(trace: Trace)
    requires Possible(trace)
    ensures Unanswered(Run(trace))
  {
    var s := Run(trace);
    RunIsSourced(trace);
    forall p | p in s.values
      ensures s.values[p].id !in s.replies
    {
      EverySendMeetsItsFate(trace, s.values[p].id);
    }
    if s.receiver.Writing? {
      EverySendMeetsItsFate(trace, s.receiver.entry.id);
    }
  }

  lemma StepBalances(s: State, sends: nat, e: Event)
    requires Balanced(s, sends) && Unanswered(s) && Enabled(s, e)
    ensures Balanced(Step(s, e), sends + if e.Send? then 1 else 0)
  {
    match e {
      case Send(path, contents) => SendBalances(s, sends, path, contents);
      case Take(path) => TakeBalances(s, sends, path);
      case Finish(error) => FinishBalances(s, sends, error);
      case _ => assert SupersededIds(Step(s, e)) == SupersededIds(s);
    }
  }

  /** No send is lost or answered twice: the sends so far are those waiting, the one in
      flight, those superseded and those written. */
  lemma {:induction false} SendsAreConserved(trace: Trace)
    requires Possible(trace)
    ensures Balanced(Run(trace), Sends(trace))
    decreases |trace|
  {
    if trace != [] {
      var n := |trace| - 1;
      SendsAreConserved(trace[..n]);
      RunIsUnanswered(trace[..n]);
      StepBalances(Run(trace[..n]), Sends(trace[..n]), trace[n]);
    }
  }

  // ----- order of writes -----

  /** Writes to a path finish in the order of their sends, and what is waiting or in
      flight for a path is younger than what was written. */
  ghost predicate Ordered(s: State) {
    && (forall i, j :: 0 <= i < j < |s.writes| && s.writes[i].path == s.writes[j].path ==>
         s.writes[i].entry.id < s.writes[j].entry.id)
    && (forall w :: w in s.writes && w.path in s.values ==> w.entry.id < s.values[w.path].id)
    && (s.receiver.Writing? ==>
         && (forall w :: w in s.writes && w.path == s.receiver.path ==> w.entry.id < s.receiver.entry.id)
         && (s.receiver.path in s.values ==> s.receiver.entry.id < s.values[s.receiver.path].id))
  }

  lemma SendKeepsOrder(trace: Trace, s: State, path: Path, contents: Contents)
    requires AllSourced(trace, s) && Ordered(s)
    ensures Ordered(Step(s, Send(path, contents)))
  {
  }

  lemma FinishKeepsOrder(trace: Trace, s: State, error: Option<string>)
    requires AllSourced(trace, s) && Ordered(s) && s.receiver.Writing?
    ensures Ordered(Step(s, Finish(error)))
  {
    var w := WriteRecord(s.receiver.path, s.receiver.entry);
    assert forall x :: x in Step(s, Finish(error)).writes ==> x in s.writes || x == w;
    assert forall i :: 0 <= i < |s.writes| ==> s.writes[i] in s.writes;
  }

  lemma StepKeepsOrder(trace: Trace, s: State, e: Event)
    requires AllSourced(trace, s) && Ordered(s) && Enabled(s, e)
    ensures Ordered(Step(s, e))
  {
    match e {
      case Send(path, contents) => SendKeepsOrder(trace, s, path, contents);
      case Finish(error) => FinishKeepsOrder(trace, s, error);
      case _ =>
    }
  }

  lemma {:induction false} WritesAreOrdered(trace: Trace)
    requires Possible(trace)
    ensures Ordered(Run(trace))
    decreases |trace|
  {
    if trace != [] {
      var n := |trace| - 1;
      WritesAreOrdered(trace[..n]);
      RunIsSourced(trace[..n]);
      StepKeepsOrder(trace[..n], Run(trace[..n]), trace[n]);
    }
  }

  /** When nothing is waiting or in flight for a path, the last value written to it is
      the last value sent to it. */
  lemma LastWriterWins(trace: Trace, k: nat) returns (i: nat)
    requires Possible(trace) && IsSend(trace, k)
    requires forall j :: k < j ==> !SentTo(trace, j, trace[k].path)
    requires trace[k].path !in Run(trace).values
    requires Run(trace).receiver.Writing? ==> Run(trace).receiver.path != trace[k].path
    ensures i < |Run(trace).writes|
    ensures Run(trace).writes[i] == WriteRecord(trace[k].path, Entry(trace[k].contents, k))
    ensures forall j :: i < j < |Run(trace).writes| ==> Run(trace).writes[j].path != trace[k].path
  {
    var s := Run(trace);
    RunIsSourced(trace);
    WritesAreOrdered(trace);
    EverySendMeetsItsFate(trace, k);
    FateInWords(trace, k);
    i :| 0 <= i < |s.writes| && s.writes[i] == WriteRecord(trace[k].path, Entry(trace[k].contents, k));
    forall j | i < j < |s.writes|
      ensures s.writes[j].path != trace[k].path
    {
      assert s.writes[j] in s.writes;
      if s.writes[j].path == trace[k].path {
        assert SentTo(trace, s.writes[j].entry.id, trace[k].path);
      }
    }
  }

  // ----- wake-ups -----

  /** A waiting value has something coming that will make the receiver look. */
  predicate WakeupDue(s: State) {
    s.values == map[] || s.permit || s.notifying > 0 || s.receiver.Woken?
  }

  /** A stored permit never meets a receiver that sleeps, so it will be used. */
  lemma {:induction false} PermitNeverSleeps(trace: Trace)
    requires Possible(trace)
    ensures Run(trace).permit ==> !Run(trace).receiver.Waiting?
  {
    if trace != [] {
      PermitNeverSleeps(trace[..|trace| - 1]);
    }
  }

  /** Taking the only entry leaves nothing to wait for; no other step loses a wake-up. */
  lemma StepKeepsWakeup(s: State, e: Event)
    requires WakeupDue(s) && Enabled(s, e)
    requires e.Take? ==> s.values.Keys <= {e.path}
    ensures WakeupDue(Step(s, e))
  {
    if e.Take? {
      assert s.values - {e.path} == map[];
    }
  }

  /** Every send of the trace is to one of the paths. */
  ghost predicate Confined(trace: Trace, paths: set<Path>) {
    forall i :: 0 <= i < |trace| && trace[i].Send? ==> trace[i].path in paths
  }

  /** With a single path in use no wake-up is ever lost. */
  lemma {:induction false} OnePathNeverStrands(trace: Trace, path: Path)
    requires Possible(trace) && Confined(trace, {path})
    ensures WakeupDue(Run(trace))
    ensures Run(trace).values.Keys <= {path}
    decreases |trace|
  {
    if trace != [] {
      var n := |trace| - 1;
      OnePathNeverStrands(trace[..n], path);
      StepKeepsWakeup(Run(trace[..n]), trace[n]);
    }
  }

  lemma Extend(trace: Trace, e: Event)
    requires Possible(trace) && Enabled(Run(trace), e)
    ensures Possible(trace + [e]) && Run(trace + [e]) == Step(Run(trace), e)
  {
    assert (trace + [e])[..|trace|] == trace;
  }

  lemma FirstSendTaken(p: Path) returns (trace: Trace)
    ensures trace == [Poll, Send(p, "1"), Notify, Take(p)]
    ensures Possible(trace)
    ensures Run(trace) == State(4, map[], 0, false, Writing(p, Entry("1", 1)), map[], [])
  {
    trace := [];
    Extend(trace, Poll);
    trace := trace + [Poll];
    Extend(trace, Send(p, "1"));
    trace := trace + [Send(p, "1")];
    Extend(trace, Notify);
    trace := trace + [Notify];
    Extend(trace, Take(p));
    trace := trace + [Take(p)];
    assert Run(trace).values == map[];
  }

  lemma TwoNotifiersOnePermit(p: Path, q: Path) returns (trace: Trace)
    requires p != q
    ensures trace == [Poll, Send(p, "1"), Notify, Take(p), Send(p, "2"), Send(q, "3"), Notify, Notify]
    ensures Possible(trace)
    ensures var s := Run(trace);
      && s.values == map[p := Entry("2", 4), q := Entry("3", 5)]
      && s.permit && s.notifying == 0 && s.receiver.Writing?
  {
    trace := FirstSendTaken(p);
    Extend(trace, Send(p, "2"));
    trace := trace + [Send(p, "2")];
    Extend(trace, Send(q, "3"));
    trace := trace + [Send(q, "3")];
    Extend(trace, Notify);
    trace := trace + [Notify];
    Extend(trace, Notify);
    trace := trace + [Notify];
  }

  lemma TakeOneOfTwo(p: Path, q: Path) returns (trace: Trace)
    requires p != q
    ensures trace == [
      Poll, Send(p, "1"), Notify, Take(p), Send(p, "2"), Send(q, "3"), Notify, Notify,
      Finish(None), Poll, Take(p)]
    ensures Possible(trace)
    ensures var s := Run(trace);
      && s.values == map[q := Entry("3", 5)]
      && !s.permit && s.notifying == 0 && s.receiver.Writing?
  {
    trace := TwoNotifiersOnePermit(p, q);
    assert Run(trace).values - {p} == map[q := Entry("3", 5)];
    Extend(trace, Finish(None));
    trace := trace + [Finish(None)];
    Extend(trace, Poll);
    trace := trace + [Poll];
    Extend(trace, Take(p));
    trace := trace + [Take(p)];
  }

  /** For any two paths the single permit is not enough: two senders notify while the
      receiver is writing, one value is then written, and the other waits with the
      receiver asleep and nobody left to wake it. */
  lemma TwoPathsStrand(p: Path, q: Path) returns (trace: Trace)
    requires p != q
    ensures Possible(trace) && Confined(trace, {p, q})
    ensures Run(trace).values == map[q := Entry("3", 5)]
    ensures !WakeupDue(Run(trace)) && Run(trace).receiver.Waiting?
  {
    trace := TakeOneOfTwo(p, q);
    Extend(trace, Finish(None));
    trace := trace + [Finish(None)];
    Extend(trace, Poll);
    trace := trace + [Poll];
    assert q in Run(trace).values;
  }

  /** No run that sends only to these paths strands a value. */
  ghost predicate NeverStrands(paths: set<Path>) {
    forall trace :: Possible(trace) && Confined(trace, paths) ==> WakeupDue(Run(trace))
  }

  /** The queue is safe for exactly the sets of at most one path. */
  lemma NeverStrandsIff(paths: set<Path>)
    ensures NeverStrands(paths) <==> |paths| <= 1
  {
    if p, q :| p in paths && q in paths && p != q {
      var trace := TwoPathsStrand(p, q);
      assert !WakeupDue(Run(trace));
      assert {p, q} <= paths;
      assert |paths - {p}| > 0 && |paths| == |paths - {p}| + 1;
    } else {
      AtMostOne(paths);
      forall trace | Possible(trace) && Confined(trace, paths)
        ensures WakeupDue(Run(trace))
      {
        var path := if paths == {} then "" else var p :| p in paths; p;
        OnePathNeverStrands(trace, path);
      }
    }
  }

  lemma AtMostOne(paths: set<Path>)
    requires forall p, q :: p in paths && q in paths ==> p == q
    ensures |paths| <= 1
  {
    if p :| p in paths {
      assert paths == {p};
    }
  }

  // ----- progress -----

  /** Nothing can happen any more unless somebody sends. */
  ghost predicate AtRest(s: State) { forall e: Event :: Enabled(s, e) ==> e.Send? }

  /** How many steps are left if nobody sends. */
  function StepsLeft(s: State): nat {
    var atReceiver :=
      match s.receiver
      case Waiting => 0
      case Looping => 1
      case Woken => 2
      case Writing(_, _) => 2;
    3 * s.notifying + (if s.permit then 2 else 0) + |s.values| + atReceiver
  }

  lemma StepIsProgress(s: State, e: Event)
    requires Enabled(s, e) && !e.Send?
    ensures StepsLeft(Step(s, e)) < StepsLeft(s)
  {
    if e.Take? {
      assert s.values.Keys == Step(s, e).values.Keys + {e.path};
      assert |s.values| == |s.values.Keys| && |Step(s, e).values| == |Step(s, e).values.Keys|;
    }
  }

  lemma LastIsProgress(trace: Trace, before: Trace, e: Event)
    requires trace == before + [e] && Possible(trace) && !e.Send?
    ensures Possible(before) && StepsLeft(Run(trace)) < StepsLeft(Run(before))
  {
    assert trace[..|trace| - 1] == before;
    StepIsProgress(Run(before), e);
  }

  /** Once nobody sends any more, a run comes to an end after a bounded number of steps. */
  lemma {:induction false} QuietRunsEnd(trace: Trace, more: Trace)
    requires Possible(trace) && Possible(trace + more)
    requires forall i :: 0 <= i < |more| ==> !more[i].Send?
    ensures |more| + StepsLeft(Run(trace + more)) <= StepsLeft(Run(trace))
    decreases |more|
  {
    if more == [] {
      assert trace + more == trace;
    } else {
      var n := |more| - 1;
      assert trace + more == (trace + more[..n]) + [more[n]];
      LastIsProgress(trace + more, trace + more[..n], more[n]);
      QuietRunsEnd(trace, more[..n]);
    }
  }

  /** Where such a run ends, with one path in use: nothing is waiting or in flight, and
      every send has been answered. */
  lemma OnePathDrains(trace: Trace, path: Path)
    requires Possible(trace) && Confined(trace, {path}) && AtRest(Run(trace))
    ensures Run(trace).values == map[] && Run(trace).receiver.Waiting?
    ensures forall k :: IsSend(trace, k) ==> k in Run(trace).replies
  {
    var s := Run(trace);
    assert !Enabled(s, Notify) && !Enabled(s, Poll) && !Enabled(s, TakeNone) && !Enabled(s, Finish(None));
    if s.receiver.Woken? {
      var p :| p in s.values;
      assert Enabled(s, Take(p));
    }
    OnePathNeverStrands(trace, path);
    PermitNeverSleeps(trace);
    forall k | IsSend(trace, k)
      ensures k in s.replies
    {
      EverySendMeetsItsFate(trace, k);
    }
  }

  /** A stranded value stays where it is until somebody sends again. */
  lemma {:induction false} StrandedUntilNextSend(trace: Trace, more: Trace)
    requires Possible(trace) && !WakeupDue(Run(trace))
    requires Possible(trace + more)
    requires forall i :: 0 <= i < |more| ==> !more[i].Send?
    ensures !WakeupDue(Run(trace + more)) && Run(trace + more).values == Run(trace).values
    decreases |more|
  {
    if more == [] {
      assert trace + more == trace;
    } else {
      var n := |more| - 1;
      assert (trace + more)[..|trace + more| - 1] == trace + more[..n];
      StrandedUntilNextSend(trace, more[..n]);
    }
  }

  // ----- the queue and the service as objects -----

  class SysfsWriter {
    var values: map<Path, Entry>
    var permit: bool
    var receiver: Receiver          // where the service loop stands
    ghost var clock: nat
    ghost var notifying: nat
    ghost var replies: map<nat, Reply>
    ghost var writes: seq<WriteRecord>

    ghost function Now(): State
      reads this
    {
      State(clock, values, notifying, permit, receiver, replies, writes)
    }

    constructor ()
      ensures Now() == START
    {
      values, permit, receiver := map[], false, Looping;
      clock, notifying, replies, writes := 0, 0, map[], [];
    }

    /** The locked part of `send`. */
    method Insert(path: Path, contents: Contents, id: nat)
      requires id == clock
      modifies this
      ensures Now() == Step(old(Now()), Send(path, contents))
    {
      if path in values {
        replies := replies[values[path].id := Superseded];
      }
      values := values[path := Entry(contents, id)];
      notifying, clock := notifying + 1, clock + 1;
    }

    /** The rest of `send`. */
    method NotifyOne()
      requires notifying > 0
      modifies this
      ensures Now() == Step(old(Now()), Notify)
    {
      if receiver.Waiting? {
        receiver := Woken;
      } else {
        permit := true;
      }
      notifying, clock := notifying - 1, clock + 1;
    }

    /** The first line of `recv`. */
    method Notified()
      requires receiver.Looping?
      modifies this
      ensures Now() == Step(old(Now()), Poll)
    {
      receiver := if permit then Woken else Waiting;
      permit := false;
      clock := clock + 1;
    }

    /** The locked part of `recv`: any entry may be the one taken. */
    method Receive() returns (e: Event)
      requires receiver.Woken?
      modifies this
      ensures Enabled(old(Now()), e) && (e.Take? || e.TakeNone?)
      ensures Now() == Step(old(Now()), e)
    {
      clock := clock + 1;
      if values == map[] {
        receiver := Looping;
        e := TakeNone;
      } else {
        var path :| path in values;
        receiver := Writing(path, values[path]);
        values := values - {path};
        e := Take(path);
      }
    }

    /** The end of the loop body of `run`. */
    method AnswerWritten(error: Option<string>)
      requires receiver.Writing?
      modifies this
      ensures Now() == Step(old(Now()), Finish(error))
    {
      replies := replies[receiver.entry.id := Written(error)];
      writes := writes + [WriteRecord(receiver.path, receiver.entry)];
      receiver := Looping;
      clock := clock + 1;
    }
  }
}
