/** The table of exported jobs: `JobManager` and `JobManagerService` in job.rs. */
module JobMirror {
  import opened Base
  import opened Text

  const JOB_PREFIX := "/com/steampowered/SteamOSManager1/Jobs"

  /** The GUID of a bus: hexadecimal digits, so no colon. */
  type Guid = s: string | ':' !in s witness ""

  datatype Origin = Process | Remote(guid: Guid, path: string)

  datatype Export = Export(path: string, origin: Origin)

  /** Outcomes of the calls one export takes: building the proxy, placing the object on
      the bus, and announcing it with `JobStarted`. */
  datatype Answer = Answer(proxy: bool, at: bool, announce: bool)

  datatype Table = Table(
    nextJob: nat,
    mirrored: map<string, string>,      // mirrored_jobs
    exported: seq<Export>,              // the object server
    unannounced: seq<Origin>)           // exports whose announcement failed

  /** The table, and whether the service loop is still running. */
  datatype State = State(table: Table, alive: bool)

  const EMPTY := Table(0, map[], [], [])

  datatype Event =
    | JobStarted(guid: Guid, path: string, answer: Answer)
    | MirrorConnection(guid: Guid, introspected: bool, jobs: seq<(string, Answer)>)
    | MirrorJob(guid: Guid, path: string, answer: Answer, replied: bool)
    | RunProcess(spawned: bool, answer: Answer, replied: bool)

  function JobPath(n: nat): string { JOB_PREFIX + "/" + Decimal(n) }

  function Key(guid: string, path: string): string { guid + ":" + path }

  // ----- one call, as a function of the state -----

  function Added(s: Table, origin: Origin, a: Answer): (Table, Result<string>) {
    var path := JobPath(s.nextJob);
    var s1 := s.(nextJob := s.nextJob + 1);
    if !a.at then (s1, Err)
    else
      var s2 := s1.(exported := s.exported + [Export(path, origin)]);
      if !a.announce then (s2.(unannounced := s.unannounced + [origin]), Err) else (s2, Ok(path))
  }

  function Mirror(s: Table, guid: Guid, path: string, a: Answer): (Table, Result<string>) {
    var key := Key(guid, path);
    if key in s.mirrored then (s, Ok(s.mirrored[key]))
    else if !a.proxy then (s, Err)
    else
      var (s1, r) := Added(s, Remote(guid, path), a);
      match r
      case Err => (s1, Err)
      case Ok(placed) => (s1.(mirrored := s1.mirrored[key := placed]), r)
  }

  /** The jobs of a connection in order, up to the first failure. */
  function MirrorAll(s: Table, guid: Guid, jobs: seq<(string, Answer)>): (Table, bool)
    decreases |jobs|
  {
    if jobs == [] then (s, true)
    else
      var (s1, r) := Mirror(s, guid, JOB_PREFIX + "/" + jobs[0].0, jobs[0].1);
      if r.Err? then (s1, false) else MirrorAll(s1, guid, jobs[1..])
  }

  /** The state after an event and the reply to its sender. */
  function Step(s: State, e: Event): (State, Result<string>) {
    if !s.alive then (s, Err)
    else
      match e
      case JobStarted(guid, path, a) =>
        var (t, r) := Mirror(s.table, guid, path, a); (State(t, r.Ok?), r)
      case MirrorConnection(guid, introspected, jobs) =>
        if !introspected then (State(s.table, false), Err)
        else var (t, ok) := MirrorAll(s.table, guid, jobs); (State(t, ok), Err)
      case MirrorJob(guid, path, a, replied) =>
        var (t, r) := Mirror(s.table, guid, path, a); (State(t, replied), r)
      case RunProcess(spawned, a, replied) =>
        if !spawned then (State(s.table, replied), Err)
        else var (t, r) := Added(s.table, Process, a); (State(t, replied), r)
  }

  function Run(trace: seq<Event>): State
    decreases |trace|
  {
    if trace == [] then State(EMPTY, true) else Step(Run(trace[..|trace| - 1]), trace[|trace| - 1]).0
  }

  // ----- the objects -----

  class JobManager {
    var nextJob: nat
    var mirroredJobs: map<string, string>
    var exported: seq<Export>
    ghost var unannounced: seq<Origin>

    ghost function Now(): Table
      reads this
    {
      Table(nextJob, mirroredJobs, exported, unannounced)
    }

    constructor ()
      ensures Now() == EMPTY
    {
      nextJob, mirroredJobs, exported, unannounced := 0, map[], [], [];
    }

    method AddJob(origin: Origin, a: Answer) returns (r: Result<string>)
      modifies this
      ensures (Now(), r) == Added(old(Now()), origin, a)
    {
      var path := JobPath(nextJob);
      nextJob := nextJob + 1;
      if !a.at { return Err; }
      exported := exported + [Export(path, origin)];
      if !a.announce {
        unannounced := unannounced + [origin];
        return Err;
      }
      return Ok(path);
    }

    method RunProcess(spawned: bool, a: Answer) returns (r: Result<string>)
      modifies this
      ensures (Now(), r) ==
        if spawned then Added(old(Now()), Process, a) else (old(Now()), Err)
    {
      if !spawned { return Err; }
      r := AddJob(Process, a);
    }

    method MirrorJob(guid: Guid, path: string, a: Answer) returns (r: Result<string>)
      modifies this
      ensures (Now(), r) == Mirror(old(Now()), guid, path, a)
    {
      var key := Key(guid, path);
      if key in mirroredJobs { return Ok(mirroredJobs[key]); }
      if !a.proxy { return Err; }
      r := AddJob(Remote(guid, path), a);
      if r.Ok? {
        mirroredJobs := mirroredJobs[key := r.value];
      }
    }

    method MirrorConnection(guid: Guid, introspected: bool, jobs: seq<(string, Answer)>) returns (ok: bool)
      modifies this
      ensures (Now(), ok) ==
        if introspected then MirrorAll(old(Now()), guid, jobs) else (old(Now()), false)
    {
      if !introspected { return false; }
      ghost var start := Now();
      for i := 0 to |jobs|
        invariant MirrorAll(start, guid, jobs) == MirrorAll(Now(), guid, jobs[i..])
      {
        assert jobs[i..][1..] == jobs[i + 1..];
        var r := MirrorJob(guid, JOB_PREFIX + "/" + jobs[i].0, jobs[i].1);
        if r.Err? { return false; }
      }
      return true;
    }
  }

  class JobManagerService {
    const manager: JobManager

    constructor ()
      ensures manager.Now() == EMPTY && fresh(manager)
    {
      manager := new JobManager();
    }

    /** One round of the service loop; `false` ends it. */
    method Handle(e: Event) returns (alive: bool, ghost reply: Result<string>)
      modifies manager
      ensures (State(manager.Now(), alive), reply) == Step(State(old(manager.Now()), true), e)
    {
      reply := Err;
      match e {
        case JobStarted(guid, path, a) =>
          var r := manager.MirrorJob(guid, path, a);
          alive, reply := r.Ok?, r;
        case MirrorConnection(guid, introspected, jobs) =>
          alive := manager.MirrorConnection(guid, introspected, jobs);
        case MirrorJob(guid, path, a, replied) =>
          var r := manager.MirrorJob(guid, path, a);
          alive, reply := replied, r;
        case RunProcess(spawned, a, replied) =>
          var r := manager.RunProcess(spawned, a);
          alive, reply := replied, r;
      }
    }
  }

  // ----- keys and paths are injective -----

  lemma {:induction false} KeyInjective(g1: Guid, p1: string, g2: Guid, p2: string)
    requires Key(g1, p1) == Key(g2, p2)
    ensures g1 == g2 && p1 == p2
  {
    var k := Key(g1, p1);
    assert k[|g1|] == ':' && k[|g2|] == ':';
    assert forall i :: 0 <= i < |g1| ==> k[i] == g1[i] && g1[i] in g1;
    assert forall i :: 0 <= i < |g2| ==> k[i] == g2[i] && g2[i] in g2;
    assert |g1| == |g2|;
    assert g1 == k[..|g1|] && g2 == k[..|g2|];
    assert p1 == k[|g1| + 1..] && p2 == k[|g2| + 1..];
  }

  lemma JobPathInjective(m: nat, n: nat)
    requires JobPath(m) == JobPath(n)
    ensures m == n
  {
    var prefix := JOB_PREFIX + "/";
    assert Decimal(m) == JobPath(m)[|prefix|..] && Decimal(n) == JobPath(n)[|prefix|..];
    DecimalInjective(m, n);
  }

  // ----- accounting for exports -----

  function Times(xs: seq<Origin>, o: Origin): nat {
    if xs == [] then 0 else Times(xs[..|xs| - 1], o) + if xs[|xs| - 1] == o then 1 else 0
  }

  function Origins(exported: seq<Export>): (xs: seq<Origin>)
    ensures |xs| == |exported|
  {
    if exported == [] then [] else Origins(exported[..|exported| - 1]) + [exported[|exported| - 1].origin]
  }

  lemma TimesAppend(xs: seq<Origin>, x: Origin, o: Origin)
    ensures Times(xs + [x], o) == Times(xs, o) + if x == o then 1 else 0
  {
    assert (xs + [x])[..|xs|] == xs;
  }

  lemma OriginsAppend(exported: seq<Export>, x: Export)
    ensures Origins(exported + [x]) == Origins(exported) + [x.origin]
  {
    assert (exported + [x])[..|exported|] == exported;
  }

  /** How often a remote is exported: once for a recorded mirror, and once for every
      export of it whose announcement failed. */
  ghost predicate Accounted(s: Table, guid: Guid, path: string) {
    Times(Origins(s.exported), Remote(guid, path)) ==
      (if Key(guid, path) in s.mirrored then 1 else 0) + Times(s.unannounced, Remote(guid, path))
  }

  /** A recorded mirror names an export of that very remote. */
  ghost predicate Recorded(s: Table, guid: Guid, path: string) {
    Key(guid, path) in s.mirrored ==> Export(s.mirrored[Key(guid, path)], Remote(guid, path)) in s.exported
  }

  ghost predicate Unused(s: Table) {
    forall i, n :: 0 <= i < |s.exported| && s.nextJob <= n ==> s.exported[i].path != JobPath(n)
  }

  /** What holds of the table at all times, for one remote. */
  ghost predicate Good(s: Table, guid: Guid, path: string) {
    Accounted(s, guid, path) && Recorded(s, guid, path) && Unused(s) && DistinctPaths(s)
  }

  ghost predicate DistinctPaths(s: Table) {
    forall i, j :: 0 <= i < j < |s.exported| ==> s.exported[i].path != s.exported[j].path
  }

  lemma AddJobUnused(s: Table, origin: Origin, a: Answer)
    requires Unused(s) && DistinctPaths(s)
    ensures Unused(Added(s, origin, a).0) && DistinctPaths(Added(s, origin, a).0)
  {
    var s1 := Added(s, origin, a).0;
    forall i, n | 0 <= i < |s1.exported| && s1.nextJob <= n
      ensures s1.exported[i].path != JobPath(n)
    {
      if i == |s.exported| && s1.exported[i].path == JobPath(n) {
        JobPathInjective(s.nextJob, n);
      }
    }
  }

  lemma AddJobAccounts(s: Table, origin: Origin, a: Answer, o: Origin)
    ensures var (s1, r) := Added(s, origin, a);
      Times(Origins(s1.exported), o) - Times(s1.unannounced, o) ==
        Times(Origins(s.exported), o) - Times(s.unannounced, o) + if r.Ok? && origin == o then 1 else 0
  {
    var path := JobPath(s.nextJob);
    OriginsAppend(s.exported, Export(path, origin));
    TimesAppend(Origins(s.exported), origin, o);
    TimesAppend(s.unannounced, origin, o);
  }

  /** What is recorded for a remote stays recorded. */
  ghost predicate Sticky(s: Table, s1: Table, guid: Guid, path: string) {
    Key(guid, path) in s.mirrored ==>
      Key(guid, path) in s1.mirrored && s1.mirrored[Key(guid, path)] == s.mirrored[Key(guid, path)]
  }

  lemma MirrorAccounts(s: Table, guid: Guid, path: string, a: Answer, g: Guid, p: string)
    requires Accounted(s, g, p)
    ensures Accounted(Mirror(s, guid, path, a).0, g, p)
  {
    if Key(guid, path) !in s.mirrored && a.proxy {
      AddJobAccounts(s, Remote(guid, path), a, Remote(g, p));
      if Key(guid, path) == Key(g, p) {
        KeyInjective(guid, path, g, p);
      }
    }
  }

  lemma MirrorRecords(s: Table, guid: Guid, path: string, a: Answer, g: Guid, p: string)
    requires Recorded(s, g, p)
    ensures var (s1, r) := Mirror(s, guid, path, a);
      && Recorded(s1, g, p) && Sticky(s, s1, g, p)
      && (r.Ok? ==> Key(guid, path) in s1.mirrored && s1.mirrored[Key(guid, path)] == r.value)
  {
    if Key(guid, path) == Key(g, p) {
      KeyInjective(guid, path, g, p);
    }
  }

  lemma MirrorKeepsGood(s: Table, guid: Guid, path: string, a: Answer, g: Guid, p: string)
    requires Good(s, g, p)
    ensures Good(Mirror(s, guid, path, a).0, g, p)
    ensures Sticky(s, Mirror(s, guid, path, a).0, g, p)
  {
    MirrorAccounts(s, guid, path, a, g, p);
    MirrorRecords(s, guid, path, a, g, p);
    AddJobUnused(s, Remote(guid, path), a);
  }

  lemma AddKeepsGood(s: Table, a: Answer, g: Guid, p: string)
    requires Good(s, g, p)
    ensures Good(Added(s, Process, a).0, g, p)
    ensures Sticky(s, Added(s, Process, a).0, g, p)
  {
    AddJobUnused(s, Process, a);
    AddJobAccounts(s, Process, a, Remote(g, p));
  }

  lemma {:induction false} MirrorAllKeepsGood(s: Table, guid: Guid, jobs: seq<(string, Answer)>, g: Guid, p: string)
    requires Good(s, g, p)
    ensures Good(MirrorAll(s, guid, jobs).0, g, p)
    ensures Sticky(s, MirrorAll(s, guid, jobs).0, g, p)
    decreases |jobs|
  {
    if jobs != [] {
      var (s1, r) := Mirror(s, guid, JOB_PREFIX + "/" + jobs[0].0, jobs[0].1);
      MirrorKeepsGood(s, guid, JOB_PREFIX + "/" + jobs[0].0, jobs[0].1, g, p);
      if r.Ok? {
        MirrorAllKeepsGood(s1, guid, jobs[1..], g, p);
      }
    }
  }

  lemma ConnectionKeepsGood(s: State, e: Event, g: Guid, p: string)
    requires e.MirrorConnection? && Good(s.table, g, p)
    ensures Good(Step(s, e).0.table, g, p)
    ensures Sticky(s.table, Step(s, e).0.table, g, p)
  {
    MirrorAllKeepsGood(s.table, e.guid, e.jobs, g, p);
  }

  lemma ProcessKeepsGood(s: State, e: Event, g: Guid, p: string)
    requires e.RunProcess? && Good(s.table, g, p)
    ensures Good(Step(s, e).0.table, g, p)
    ensures Sticky(s.table, Step(s, e).0.table, g, p)
  {
    AddKeepsGood(s.table, e.answer, g, p);
  }

  lemma StepKeepsGood(s: State, e: Event, g: Guid, p: string)
    requires Good(s.table, g, p)
    ensures Good(Step(s, e).0.table, g, p)
    ensures Sticky(s.table, Step(s, e).0.table, g, p)
  {
    match e {
      case JobStarted(guid, path, a) => MirrorKeepsGood(s.table, guid, path, a, g, p);
      case MirrorConnection(_, _, _) => ConnectionKeepsGood(s, e, g, p);
      case MirrorJob(guid, path, a, _) => MirrorKeepsGood(s.table, guid, path, a, g, p);
      case RunProcess(_, _, _) => ProcessKeepsGood(s, e, g, p);
    }
  }

  /** Over every interleaving, failures included: all exported objects have distinct
      paths, and a remote is exported once for its recorded mirror and once more for
      each export of it that could not be announced.  So with successful announcements
      it is exported exactly once. */
  lemma {:induction false} ExportsAreAccounted(trace: seq<Event>, guid: Guid, path: string)
    ensures Good(Run(trace).table, guid, path)
    decreases |trace|
  {
    if trace != [] {
      ExportsAreAccounted(trace[..|trace| - 1], guid, path);
      StepKeepsGood(Run(trace[..|trace| - 1]), trace[|trace| - 1], guid, path);
    }
  }

  /** A reply that names a mirror of a remote. */
  predicate Replies(trace: seq<Event>, i: nat, guid: Guid, path: string, placed: string) {
    && i < |trace|
    && (trace[i].MirrorJob? || trace[i].JobStarted?)
    && trace[i].guid == guid && trace[i].path == path
    && Step(Run(trace[..i]), trace[i]).1 == Ok(placed)
  }

  lemma {:induction false} RecordStays(trace: seq<Event>, i: nat, guid: Guid, path: string, placed: string)
    requires Replies(trace, i, guid, path, placed)
    ensures Key(guid, path) in Run(trace).table.mirrored && Run(trace).table.mirrored[Key(guid, path)] == placed
    decreases |trace|
  {
    var n := |trace| - 1;
    var s := Run(trace[..n]);
    ExportsAreAccounted(trace[..n], guid, path);
    if i == n {
      MirrorRecords(s.table, guid, path, trace[n].answer, guid, path);
    } else {
      assert trace[..n][..i] == trace[..i];
      RecordStays(trace[..n], i, guid, path, placed);
      StepKeepsGood(s, trace[n], guid, path);
    }
  }

  /** Every reply for a remote names the same object, and that object mirrors it. */
  lemma RepliesNameOneObject(trace: seq<Event>, i: nat, j: nat, guid: Guid, path: string, a: string, b: string)
    requires Replies(trace, i, guid, path, a) && Replies(trace, j, guid, path, b)
    ensures a == b
    ensures Export(a, Remote(guid, path)) in Run(trace).table.exported
  {
    RecordStays(trace, i, guid, path, a);
    RecordStays(trace, j, guid, path, b);
    ExportsAreAccounted(trace, guid, path);
  }

  /** A remote whose announcements all succeeded is exported exactly once as soon as a
      reply has named a mirror of it, and at most once in any case. */
  lemma MirroredExactlyOnce(trace: seq<Event>, guid: Guid, path: string)
    requires Times(Run(trace).table.unannounced, Remote(guid, path)) == 0
    ensures Times(Origins(Run(trace).table.exported), Remote(guid, path)) <= 1
    ensures forall i, placed :: Replies(trace, i, guid, path, placed) ==>
      Times(Origins(Run(trace).table.exported), Remote(guid, path)) == 1
  {
    ExportsAreAccounted(trace, guid, path);
    forall i, placed | Replies(trace, i, guid, path, placed)
      ensures Times(Origins(Run(trace).table.exported), Remote(guid, path)) == 1
    {
      RecordStays(trace, i, guid, path, placed);
    }
  }

  /** Once a reply has named a mirror of a remote, every later request for that remote
      is answered with it and changes nothing, whatever would have failed. */
  lemma AnsweredOnceAndForAll(trace: seq<Event>, i: nat, guid: Guid, path: string, placed: string,
        a: Answer, replied: bool)
    requires Replies(trace, i, guid, path, placed) && Run(trace).alive
    ensures Step(Run(trace), MirrorJob(guid, path, a, replied)) == (State(Run(trace).table, replied), Ok(placed))
  {
    RecordStays(trace, i, guid, path, placed);
  }

  /** A request for a remote that is not recorded is answered exactly when its three
      calls succeed, with an object that mirrors it under a path never used before. */
  lemma NewMirrorIff(trace: seq<Event>, guid: Guid, path: string, a: Answer)
    requires Run(trace).alive && Key(guid, path) !in Run(trace).table.mirrored
    ensures var (s1, r) := Step(Run(trace), MirrorJob(guid, path, a, true));
      && (r.Ok? <==> a.proxy && a.at && a.announce)
      && (r.Ok? ==>
           && s1.table.exported == Run(trace).table.exported + [Export(r.value, Remote(guid, path))]
           && forall e :: e in Run(trace).table.exported ==> e.path != r.value)
  {
    ExportsAreAccounted(trace, guid, path);
  }

  // ----- the jobs of a connection -----

  /** The object path of a job as introspection names it. */
  function Listed(name: string): string { JOB_PREFIX + "/" + name }

  lemma ListedInjective(a: string, b: string)
    requires Listed(a) == Listed(b)
    ensures a == b
  {
    assert a == Listed(a)[|Listed("")|..] && b == Listed(b)[|Listed("")|..];
  }

  /** Job `k` of a connection can be mirrored, the ones before it having been: it is
      recorded already, it was listed before, or its calls succeed. */
  predicate Works(mirrored: map<string, string>, guid: Guid, jobs: seq<(string, Answer)>, k: nat)
    requires k < |jobs|
  {
    || Key(guid, Listed(jobs[k].0)) in mirrored
    || (exists j :: 0 <= j < k && jobs[j].0 == jobs[k].0)
    || (jobs[k].1.proxy && jobs[k].1.at && jobs[k].1.announce)
  }

  /** The first `m` jobs are those before the first that cannot be mirrored. */
  ghost predicate UpToFailure(mirrored: map<string, string>, guid: Guid, jobs: seq<(string, Answer)>, m: nat) {
    && m <= |jobs|
    && (forall k :: 0 <= k < m ==> Works(mirrored, guid, jobs, k))
    && (m < |jobs| ==> !Works(mirrored, guid, jobs, m))
  }

  /** There always is such a number of jobs. */
  lemma {:induction false} SomeUpToFailure(mirrored: map<string, string>, guid: Guid,
        jobs: seq<(string, Answer)>, k: nat)
    returns (m: nat)
    requires k <= |jobs| && forall j :: 0 <= j < k ==> Works(mirrored, guid, jobs, j)
    ensures UpToFailure(mirrored, guid, jobs, m)
    decreases |jobs| - k
  {
    m := k;
    if k < |jobs| && Works(mirrored, guid, jobs, k) {
      m := SomeUpToFailure(mirrored, guid, jobs, k + 1);
    }
  }

  ghost function Keys(guid: Guid, jobs: seq<(string, Answer)>, m: nat): set<string>
    requires m <= |jobs|
  {
    set k | 0 <= k < m :: Key(guid, Listed(jobs[k].0))
  }

  lemma OneMirrored(s: Table, guid: Guid, jobs: seq<(string, Answer)>)
    requires jobs != []
    ensures var (s1, r) := Mirror(s, guid, Listed(jobs[0].0), jobs[0].1);
      && (r.Ok? <==> Works(s.mirrored, guid, jobs, 0))
      && s1.mirrored.Keys == s.mirrored.Keys + if r.Ok? then {Key(guid, Listed(jobs[0].0))} else {}
  {
  }

  lemma WorksLater(s: Table, s1: Table, guid: Guid, jobs: seq<(string, Answer)>, k: nat)
    requires 0 < k < |jobs|
    requires s1.mirrored.Keys == s.mirrored.Keys + {Key(guid, Listed(jobs[0].0))}
    ensures Works(s1.mirrored, guid, jobs[1..], k - 1) <==> Works(s.mirrored, guid, jobs, k)
  {
    var rest := jobs[1..];
    assert forall j :: 0 <= j < |rest| ==> rest[j] == jobs[j + 1];
    if Key(guid, Listed(jobs[k].0)) == Key(guid, Listed(jobs[0].0)) {
      KeyInjective(guid, Listed(jobs[k].0), guid, Listed(jobs[0].0));
      ListedInjective(jobs[k].0, jobs[0].0);
    }
    if j :| 0 <= j < k && jobs[j].0 == jobs[k].0 {
      assert j > 0 ==> rest[j - 1].0 == rest[k - 1].0;
    }
  }

  lemma {:induction false} AllMirrored(s: Table, guid: Guid, jobs: seq<(string, Answer)>, m: nat)
    requires UpToFailure(s.mirrored, guid, jobs, m)
    ensures var (s1, ok) := MirrorAll(s, guid, jobs);
      s1.mirrored.Keys == s.mirrored.Keys + Keys(guid, jobs, m) && (ok <==> m == |jobs|)
    decreases |jobs|
  {
    if jobs != [] {
      assert Listed(jobs[0].0) == JOB_PREFIX + "/" + jobs[0].0;
      var (s1, r) := Mirror(s, guid, Listed(jobs[0].0), jobs[0].1);
      OneMirrored(s, guid, jobs);
      if m == 0 {
        assert !Works(s.mirrored, guid, jobs, 0);
      } else {
        assert Works(s.mirrored, guid, jobs, 0);
        forall k | 1 <= k < |jobs|
          ensures Works(s1.mirrored, guid, jobs[1..], k - 1) <==> Works(s.mirrored, guid, jobs, k)
        {
          WorksLater(s, s1, guid, jobs, k);
        }
        forall k | 0 <= k < m - 1
          ensures Works(s1.mirrored, guid, jobs[1..], k)
        {
          assert Works(s.mirrored, guid, jobs, k + 1);
          WorksLater(s, s1, guid, jobs, k + 1);
        }
        AllMirrored(s1, guid, jobs[1..], m - 1);
        KeysFirst(guid, jobs, m);
      }
    }
  }

  lemma KeysFirst(guid: Guid, jobs: seq<(string, Answer)>, m: nat)
    requires 0 < m <= |jobs|
    ensures Keys(guid, jobs, m) == {Key(guid, Listed(jobs[0].0))} + Keys(guid, jobs[1..], m - 1)
  {
    forall k | 0 < k < m
      ensures Key(guid, Listed(jobs[k].0)) in Keys(guid, jobs[1..], m - 1)
    {
      assert jobs[1..][k - 1] == jobs[k];
    }
    forall k | 0 <= k < m - 1
      ensures Key(guid, Listed(jobs[1..][k].0)) in Keys(guid, jobs, m)
    {
      assert jobs[1..][k] == jobs[k + 1];
    }
  }

  /** In every run, mirroring a connection records its listed jobs under their object
      paths: exactly those before the first that cannot be mirrored, all of them if every
      call succeeds; and the service goes on exactly in that case. */
  lemma ConnectionIsMirrored(trace: seq<Event>, guid: Guid, jobs: seq<(string, Answer)>, m: nat)
    requires Run(trace).alive && UpToFailure(Run(trace).table.mirrored, guid, jobs, m)
    ensures var s, s1 := Run(trace), Run(trace + [MirrorConnection(guid, true, jobs)]);
      && s1.table.mirrored.Keys == s.table.mirrored.Keys + Keys(guid, jobs, m)
      && (s1.alive <==> m == |jobs|)
  {
    var t1 := trace + [MirrorConnection(guid, true, jobs)];
    assert t1[..|t1| - 1] == trace;
    AllMirrored(Run(trace).table, guid, jobs, m);
  }

  /** Each of these jobs is recorded with an export of that very remote. */
  lemma ListedJobIsExported(trace: seq<Event>, guid: Guid, jobs: seq<(string, Answer)>, m: nat, k: nat)
    requires Run(trace).alive && UpToFailure(Run(trace).table.mirrored, guid, jobs, m) && k < m
    ensures var s1 := Run(trace + [MirrorConnection(guid, true, jobs)]).table;
      var path := JOB_PREFIX + "/" + jobs[k].0;
      Key(guid, path) in s1.mirrored && Export(s1.mirrored[Key(guid, path)], Remote(guid, path)) in s1.exported
  {
    ConnectionIsMirrored(trace, guid, jobs, m);
    assert Key(guid, Listed(jobs[k].0)) in Keys(guid, jobs, m);
    ExportsAreAccounted(trace + [MirrorConnection(guid, true, jobs)], guid, Listed(jobs[k].0));
  }

  lemma {:induction false} RecordedForGood(trace: seq<Event>, more: seq<Event>, guid: Guid, path: string)
    requires Key(guid, path) in Run(trace).table.mirrored
    ensures Sticky(Run(trace).table, Run(trace + more).table, guid, path)
    decreases |more|
  {
    if more == [] {
      assert trace + more == trace;
    } else {
      var n := |more| - 1;
      assert (trace + more)[..|trace + more| - 1] == trace + more[..n];
      RecordedForGood(trace, more[..n], guid, path);
      ExportsAreAccounted(trace + more[..n], guid, path);
      StepKeepsGood(Run(trace + more[..n]), more[n], guid, path);
    }
  }

  /** A request for a job that a connection listed is answered with that mirror, whatever
      happened in between. */
  lemma ListedJobIsAnswered(trace: seq<Event>, guid: Guid, jobs: seq<(string, Answer)>, m: nat, k: nat,
        more: seq<Event>, a: Answer, replied: bool)
    requires Run(trace).alive && UpToFailure(Run(trace).table.mirrored, guid, jobs, m) && k < m
    ensures var t1 := trace + [MirrorConnection(guid, true, jobs)];
      var key := Key(guid, Listed(jobs[k].0));
      && key in Run(t1).table.mirrored
      && (Run(t1 + more).alive ==>
           Step(Run(t1 + more), MirrorJob(guid, Listed(jobs[k].0), a, replied)).1 == Ok(Run(t1).table.mirrored[key]))
  {
    ListedJobIsExported(trace, guid, jobs, m, k);
    RecordedForGood(trace + [MirrorConnection(guid, true, jobs)], more, guid, Listed(jobs[k].0));
  }

  // ----- processes, and the end of the loop -----

  /** The path of the next object. */
  function NewPath(s: Table): string { "/com/steampowered/SteamOSManager1/Jobs/" + Decimal(s.nextJob) }

  /** A process that was spawned uses up the next number, whatever happens to it; it is
      answered exactly when it could be placed and announced, with the new object. */
  lemma NewProcessIff(trace: seq<Event>, spawned: bool, a: Answer)
    requires Run(trace).alive
    ensures var s, (s1, r) := Run(trace), Step(Run(trace), RunProcess(spawned, a, true));
      && (r.Ok? <==> spawned && a.at && a.announce)
      && s1.table.nextJob == s.table.nextJob + (if spawned then 1 else 0)
      && s1.table.mirrored == s.table.mirrored
      && s1.table.exported == s.table.exported
           + (if spawned && a.at then [Export(NewPath(s.table), Process)] else [])
      && (r.Ok? ==> r.value == NewPath(s.table))
  {
    var s := Run(trace).table;
    assert JobPath(s.nextJob) == NewPath(s);
    assert s.exported + [] == s.exported;
  }

  /** What ends the service loop: a signalled job or a listed one that cannot be mirrored,
      a failed introspection, or an answer nobody takes. */
  lemma LoopGoesOnIff(trace: seq<Event>, e: Event, m: nat)
    requires Run(trace).alive
    requires e.MirrorConnection? ==> UpToFailure(Run(trace).table.mirrored, e.guid, e.jobs, m)
    ensures Step(Run(trace), e).0.alive <==>
      match e
      case JobStarted(guid, path, a) =>
        Key(guid, path) in Run(trace).table.mirrored || (a.proxy && a.at && a.announce)
      case MirrorConnection(_, introspected, jobs) => introspected && m == |jobs|
      case MirrorJob(_, _, _, replied) => replied
      case RunProcess(_, _, replied) => replied
  {
    if e.MirrorConnection? {
      AllMirrored(Run(trace).table, e.guid, e.jobs, m);
    }
  }

  /** Announcements are needed: after a failed one the remote is exported again. */
  lemma FailedAnnouncementExportsTwice(trace: seq<Event>)
    requires trace == [
      MirrorJob("ab", "/job", Answer(true, true, false), true),
      MirrorJob("ab", "/job", Answer(true, true, true), true)]
    ensures Run(trace).table.exported ==
      [Export(JobPath(0), Remote("ab", "/job")), Export(JobPath(1), Remote("ab", "/job"))]
  {
    assert trace[..1][..0] == [];
    assert Run(trace[..1]).table.exported == [Export(JobPath(0), Remote("ab", "/job"))];
    assert Run(trace[..1]).table.mirrored == map[];
  }
}
