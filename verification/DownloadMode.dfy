/**
 The download-mode arbiter of the user daemon: `TdpManagerService`.

 The service counts named download handles, each watched by a waiter task.  While
 any handle is open it overrides the hardware power limit with the download limit
 and may stop the fan service; when the last handle closes it puts both back.

 Everything outside the service answers through `Answers`, one record per event,
 so that every call may fail, and `Device` is the hardware the calls act on.
 */
module DownloadMode {
  import opened Base

  datatype FanState = Bios | Os

  datatype Config = Config(downloadLimit: Option<NonZero>, fanSpeed: Option<NonZero>)

  datatype Device = Device(limit: nat, fan: FanState, rpm: nat)

  /** The replies of the outside world while one event is handled. `None` is an error. */
  datatype Answers = Answers(
    active: Option<bool>,
    read: Option<nat>,
    write: Call,
    fanRead: Option<FanState>,
    fanWrite: Call,
    speedWrite: Call,
    pipe: bool)

  /** A limit written by the service, and whether a handle was open at that moment. */
  datatype LimitWrite = LimitWrite(limit: nat, open: bool, call: Call)

  datatype State = State(
    handles: map<string, nat>,   // download_handles
    tasks: multiset<string>,     // download_set: one waiter task per open handle
    previous: Option<NonZero>,   // previous_limit
    restartFan: bool,            // restart_fan_control_service
    device: Device,
    log: seq<LimitWrite>)
  {
    predicate Open() { handles != map[] }
  }

  datatype Event =
    | SetLimit(limit: nat)       // SetTdpLimit
    | Enter(id: string)          // EnterDownloadMode
    | Update                     // UpdateDownloadMode
    | Query(question: Question)
    | Closed(id: string)         // a waiter task ended
    | Outside(device: Device)    // someone else changed the hardware

  /** GetTdpLimit, IsActive and ListDownloadModeHandles; GetTdpLimitRange reads
      configuration only. */
  datatype Question = Limit | Activity | Handles

  /** What the sender of a command is told. */
  datatype Reply =
    | Nothing
    | TheLimit(limit: Option<nat>)
    | TheActivity(active: Option<bool>)
    | TheHandles(handles: map<string, nat>)
    | TheHandle(handle: Result<Option<string>>)

  // ----- one event, as a function of the state -----

  function WriteLimit(s: State, limit: nat, call: Call): State {
    s.(device := if call.Refused? then s.device else s.device.(limit := limit),
       log := s.log + [LimitWrite(limit, s.Open(), call)])
  }

  function WriteFan(s: State, fan: FanState, call: Call): State {
    if call.Refused? then s else s.(device := s.device.(fan := fan))
  }

  function WriteSpeed(s: State, rpm: nat, call: Call): State {
    if call.Refused? then s else s.(device := s.device.(rpm := rpm))
  }

  function HoldFan(c: Config, s: State, a: Answers): (State, bool) {
    if c.fanSpeed.None? then (s, true)
    else if a.fanRead.None? then (s, false)
    else if a.fanRead.value.Os? && !a.fanWrite.Done? then (WriteFan(s, Bios, a.fanWrite), false)
    else
      var s1 := if a.fanRead.value.Os? then WriteFan(s, Bios, a.fanWrite).(restartFan := true) else s;
      (WriteSpeed(s1, c.fanSpeed.value, a.speedWrite), a.speedWrite.Done?)
  }

  function Hold(c: Config, s: State, a: Answers, current: NonZero): (State, bool)
    requires c.downloadLimit.Some?
  {
    var s1 := if s.previous.None? then s.(previous := Some(current)) else s;
    if current == c.downloadLimit.value then HoldFan(c, s1, a)
    else
      var s2 := WriteLimit(s1, c.downloadLimit.value, a.write);
      if a.write.Done? then HoldFan(c, s2, a) else (s2, false)
  }

  function Leave(s: State, a: Answers): (State, bool) {
    if s.previous.Some? && !a.write.Done? then (WriteLimit(s, s.previous.value, a.write), false)
    else
      var s1 := if s.previous.Some? then WriteLimit(s, s.previous.value, a.write).(previous := None) else s;
      (if s1.restartFan then WriteFan(s1, Os, a.fanWrite).(restartFan := false) else s1, true)
  }

  /** `update_download_mode`: the new state, and whether it returned `Ok`. */
  function UpdateMode(c: Config, s: State, a: Answers): (State, bool) {
    if a.active.None? then (s, false)
    else if !a.active.value || c.downloadLimit.None? then (s, true)
    else if a.read.None? then (s, false)
    else if a.read.value == 0 then (s, true)
    else if s.Open() then Hold(c, s, a, a.read.value)
    else Leave(s, a)
  }

  function AddHandle(s: State, id: string): State {
    s.(handles := s.handles[id := if id in s.handles then s.handles[id] + 1 else 1],
       tasks := s.tasks + multiset{id})
  }

  function DropHandle(s: State, id: string): State {
    var s1 := s.(tasks := s.tasks - multiset{id});
    if id !in s.handles then s1
    else if s.handles[id] == 1 then s1.(handles := s.handles - {id})
    else s1.(handles := s.handles[id := if s.handles[id] == 0 then 0 else s.handles[id] - 1])
  }

  function Step(c: Config, s: State, e: Event, a: Answers): State {
    match e
    case SetLimit(limit) => if s.Open() then s else WriteLimit(s, limit, a.write)
    case Enter(id) =>
      if c.downloadLimit.None? || !a.pipe then s else UpdateMode(c, AddHandle(s, id), a).0
    case Update => UpdateMode(c, s, a).0
    case Query(_) => s
    case Closed(id) =>
      var s1 := DropHandle(s, id);
      if s.Open() && !s1.Open() then UpdateMode(c, s1, a).0 else s1
    case Outside(device) => s.(device := device)
  }

  /** The reply to the sender of an event. */
  function Told(c: Config, s: State, e: Event, a: Answers): Reply {
    match e
    case Query(Limit) => TheLimit(a.read)
    case Query(Activity) => TheActivity(a.active)
    case Query(Handles) => TheHandles(s.handles)
    case Enter(id) => TheHandle(
      if c.downloadLimit.None? then Ok(None)
      else if a.pipe && UpdateMode(c, AddHandle(s, id), a).1 then Ok(Some(id))
      else Err)
    case _ => Nothing
  }

  /** A waiter task can only end if it is running. */
  predicate Enabled(s: State, e: Event) {
    e.Closed? ==> e.id in s.tasks
  }

  // ----- runs -----

  type Trace = seq<(Event, Answers)>

  function Run(c: Config, s: State, trace: Trace): State
    decreases |trace|
  {
    if trace == [] then s
    else var n := |trace| - 1; Step(c, Run(c, s, trace[..n]), trace[n].0, trace[n].1)
  }

  predicate Possible(c: Config, s: State, trace: Trace)
    decreases |trace|
  {
    trace == [] ||
    (var n := |trace| - 1; Possible(c, s, trace[..n]) && Enabled(Run(c, s, trace[..n]), trace[n].0))
  }

  function Start(device: Device): State {
    State(map[], multiset{}, None, false, device, [])
  }

  // ----- handle conservation -----

  /** Every identifier is counted exactly as often as it has waiter tasks running. */
  ghost predicate Counted(s: State) {
    && (forall id :: id in s.handles ==> s.handles[id] == s.tasks[id] > 0)
    && (forall id :: id in s.tasks ==> id in s.handles)
  }

  lemma HoldFanKeepsHandles(c: Config, s: State, a: Answers)
    ensures var s1 := HoldFan(c, s, a).0;
      s1.handles == s.handles && s1.tasks == s.tasks && s1.log == s.log && s1.previous == s.previous
  {
  }

  lemma UpdateKeepsHandles(c: Config, s: State, a: Answers)
    ensures UpdateMode(c, s, a).0.handles == s.handles
    ensures UpdateMode(c, s, a).0.tasks == s.tasks
  {
    if s.Open() && c.downloadLimit.Some? && a.read.Some? && a.read.value > 0 {
      var s1 := if s.previous.None? then s.(previous := Some(a.read.value)) else s;
      HoldFanKeepsHandles(c, s1, a);
      HoldFanKeepsHandles(c, WriteLimit(s1, c.downloadLimit.value, a.write), a);
    }
  }

  lemma AddKeepsCounted(s: State, id: string)
    requires Counted(s)
    ensures Counted(AddHandle(s, id))
  {
  }

  lemma DropKeepsCounted(s: State, id: string)
    requires Counted(s) && id in s.tasks
    ensures Counted(DropHandle(s, id))
  {
    var s1 := DropHandle(s, id);
    assert forall x :: x != id ==> s1.tasks[x] == s.tasks[x];
  }

  lemma StepKeepsCounted(c: Config, s: State, e: Event, a: Answers)
    requires Counted(s) && Enabled(s, e)
    ensures Counted(Step(c, s, e, a))
  {
    match e {
      case Enter(id) =>
        AddKeepsCounted(s, id);
        UpdateKeepsHandles(c, AddHandle(s, id), a);
      case Update => UpdateKeepsHandles(c, s, a);
      case Closed(id) =>
        DropKeepsCounted(s, id);
        UpdateKeepsHandles(c, DropHandle(s, id), a);
      case _ =>
    }
  }

  lemma OpenWhileTasksRun(s: State)
    requires Counted(s)
    ensures !s.Open() <==> s.tasks == multiset{}
  {
    if s.tasks != multiset{} {
      var id :| id in s.tasks;
    }
    if s.Open() {
      var id :| id in s.handles;
      assert id in s.tasks;
    }
  }

  /** In every reachable state, whatever failed on the way, the count kept for an
      identifier is the number of its waiter tasks, no count is zero, and the map
      is empty exactly when no task runs. */
  lemma {:induction false} HandlesCountTasks(c: Config, s: State, trace: Trace)
    requires Counted(s) && Possible(c, s, trace)
    ensures Counted(Run(c, s, trace))
    ensures !Run(c, s, trace).Open() <==> Run(c, s, trace).tasks == multiset{}
    decreases |trace|
  {
    if trace != [] {
      var n := |trace| - 1;
      HandlesCountTasks(c, s, trace[..n]);
      StepKeepsCounted(c, Run(c, s, trace[..n]), trace[n].0, trace[n].1);
    }
    OpenWhileTasksRun(Run(c, s, trace));
  }

  // ----- safety of every run, failures included -----

  /** The limits an event may write: the download limit while a handle is open,
      otherwise the limit the client asks for or the saved one. */
  ghost predicate Allowed(c: Config, s: State, e: Event, a: Answers, w: LimitWrite) {
    && w.call == a.write
    && (if w.open then c.downloadLimit == Some(w.limit)
        else e == SetLimit(w.limit) || s.previous == Some(w.limit))
  }

  ghost predicate ObeysLog(c: Config, s: State, e: Event, a: Answers, s1: State) {
    s1.log == s.log || (|s1.log| == |s.log| + 1 && s1.log == s.log + [s1.log[|s.log|]]
                        && Allowed(c, s, e, a, s1.log[|s.log|]))
  }

  /** The saved limit appears only with a handle open and as the value just read,
      never changes while present, and goes only when it has just been written back
      successfully with no handle open. */
  ghost predicate ObeysPrevious(s: State, a: Answers, s1: State) {
    s.previous != s1.previous ==>
      if s.previous.None? then s1.Open() && a.read == Some(s1.previous.value)
      else
        && s1.previous.None? && !s1.Open()
        && s1.device.limit == s.previous.value
        && s1.log == s.log + [LimitWrite(s.previous.value, false, Done)]
  }

  lemma HoldObeys(c: Config, s: State, e: Event, a: Answers, current: NonZero)
    requires c.downloadLimit.Some? && s.Open() && a.read == Some(current)
    ensures ObeysLog(c, s, e, a, Hold(c, s, a, current).0)
    ensures ObeysPrevious(s, a, Hold(c, s, a, current).0)
  {
    var s1 := if s.previous.None? then s.(previous := Some(current)) else s;
    HoldFanKeepsHandles(c, s1, a);
    HoldFanKeepsHandles(c, WriteLimit(s1, c.downloadLimit.value, a.write), a);
  }

  lemma UpdateObeys(c: Config, s: State, e: Event, a: Answers)
    ensures ObeysLog(c, s, e, a, UpdateMode(c, s, a).0)
    ensures ObeysPrevious(s, a, UpdateMode(c, s, a).0)
  {
    if s.Open() && c.downloadLimit.Some? && a.read.Some? && a.read.value > 0 {
      HoldObeys(c, s, e, a, a.read.value);
    }
  }

  lemma EnterObeys(c: Config, s: State, id: string, a: Answers)
    ensures ObeysLog(c, s, Enter(id), a, Step(c, s, Enter(id), a))
    ensures ObeysPrevious(s, a, Step(c, s, Enter(id), a))
  {
    if c.downloadLimit.Some? && a.pipe {
      UpdateObeys(c, AddHandle(s, id), Enter(id), a);
    }
  }

  lemma ClosedObeys(c: Config, s: State, id: string, a: Answers)
    ensures ObeysLog(c, s, Closed(id), a, Step(c, s, Closed(id), a))
    ensures ObeysPrevious(s, a, Step(c, s, Closed(id), a))
  {
    var s1 := DropHandle(s, id);
    if s.Open() && !s1.Open() {
      assert Step(c, s, Closed(id), a) == UpdateMode(c, s1, a).0;
      UpdateObeys(c, s1, Closed(id), a);
    } else {
      assert Step(c, s, Closed(id), a) == s1;
    }
  }

  /** What every event obeys, whatever the answers. */
  lemma StepObeys(c: Config, s: State, e: Event, a: Answers)
    ensures ObeysLog(c, s, e, a, Step(c, s, e, a))
    ensures ObeysPrevious(s, a, Step(c, s, e, a))
  {
    match e {
      case Enter(id) => EnterObeys(c, s, id, a);
      case Update => UpdateObeys(c, s, e, a);
      case Closed(id) => ClosedObeys(c, s, id, a);
      case _ =>
    }
  }

  /** Over every run, including failed calls, inactivity and zero reads: a limit
      written while a handle is open is the download limit; any other limit written
      was asked for by a client or read from the hardware earlier in the run. */
  lemma {:induction false} EveryWriteIsExplained(c: Config, device: Device, trace: Trace, k: nat)
    requires k < |Run(c, Start(device), trace).log|
    ensures var w := Run(c, Start(device), trace).log[k];
      if w.open then c.downloadLimit == Some(w.limit)
      else exists i :: 0 <= i < |trace| && (trace[i].0 == SetLimit(w.limit) || trace[i].1.read == Some(w.limit))
    decreases |trace|
  {
    if trace != [] {
      var n := |trace| - 1;
      var s := Run(c, Start(device), trace[..n]);
      var s1 := Run(c, Start(device), trace);
      StepObeys(c, s, trace[n].0, trace[n].1);
      if k < |s.log| {
        EveryWriteIsExplained(c, device, trace[..n], k);
        assert s1.log[k] == s.log[k];
      } else {
        var w := s1.log[k];
        if !w.open && trace[n].0 != SetLimit(w.limit) {
          var i := SavedLimitWasRead(c, device, trace[..n]);
          assert trace[i].1.read == Some(w.limit);
        }
      }
    }
  }

  /** Event `i` of the run read `v` from the hardware and, with nothing saved
      before it, left it saved with a handle open; it has stayed saved since. */
  ghost predicate SavedSince(c: Config, device: Device, trace: Trace, i: nat, v: nat) {
    && i < |trace|
    && trace[i].1.read == Some(v)
    && Run(c, Start(device), trace[..i]).previous.None?
    && Run(c, Start(device), trace[..i + 1]).Open()
    && forall j :: i < j <= |trace| ==> Run(c, Start(device), trace[..j]).previous == Some(v)
  }

  lemma SavedOneMore(c: Config, device: Device, trace: Trace, i: nat, v: nat)
    requires trace != [] && SavedSince(c, device, trace[..|trace| - 1], i, v)
    requires Run(c, Start(device), trace).previous == Some(v)
    ensures SavedSince(c, device, trace, i, v)
  {
    var shorter := trace[..|trace| - 1];
    assert shorter[..i] == trace[..i] && shorter[..i + 1] == trace[..i + 1];
    forall j | i < j <= |trace|
      ensures Run(c, Start(device), trace[..j]).previous == Some(v)
    {
      if j == |trace| {
        assert trace[..j] == trace;
      } else {
        assert shorter[..j] == trace[..j];
      }
    }
  }

  lemma SavedJustNow(c: Config, device: Device, trace: Trace)
    requires trace != []
    ensures var n, s := |trace| - 1, Run(c, Start(device), trace);
      Run(c, Start(device), trace[..n]).previous.None? && s.previous.Some? ==>
        SavedSince(c, device, trace, n, s.previous.value)
  {
    var n := |trace| - 1;
    StepObeys(c, Run(c, Start(device), trace[..n]), trace[n].0, trace[n].1);
    assert trace[..n + 1] == trace;
  }

  /** Whatever failed, a saved limit is one that the run really read from the
      hardware as a session began. */
  lemma {:induction false} SavedLimitWasRead(c: Config, device: Device, trace: Trace) returns (i: nat)
    requires Run(c, Start(device), trace).previous.Some?
    ensures SavedSince(c, device, trace, i, Run(c, Start(device), trace).previous.value)
    decreases |trace|
  {
    i := |trace| - 1;
    var before := Run(c, Start(device), trace[..i]);
    if before.previous.None? {
      SavedJustNow(c, device, trace);
    } else {
      StepObeys(c, before, trace[i].0, trace[i].1);
      i := SavedLimitWasRead(c, device, trace[..i]);
      SavedOneMore(c, device, trace, i, before.previous.value);
    }
  }

  // ----- what an event may touch, and how an entry is answered -----

  /** The hardware, its log and what the service remembers about it. */
  predicate Untouched(s: State, s1: State) {
    s1.device == s.device && s1.log == s.log && s1.previous == s.previous && s1.restartFan == s.restartFan
  }

  /** Limiting is configured, active and readable. */
  predicate Usable(c: Config, a: Answers) {
    c.downloadLimit.Some? && a.active == Some(true) && a.read.Some? && a.read.value != 0
  }

  lemma UpdateTouches(c: Config, s: State, a: Answers)
    ensures !Usable(c, a) ==> Untouched(s, UpdateMode(c, s, a).0)
  {
  }

  lemma LastHandle(s: State, id: string)
    requires Counted(s) && s.Open() && !DropHandle(s, id).Open()
    ensures s.handles == map[id := 1]
  {
    assert forall x :: x in s.handles && x != id ==> x in DropHandle(s, id).handles;
  }

  lemma ClosedTouches(c: Config, s: State, id: string, a: Answers)
    requires Counted(s)
    ensures Untouched(s, Step(c, s, Closed(id), a)) || (Usable(c, a) && s.handles == map[id := 1])
  {
    var s1 := DropHandle(s, id);
    if s.Open() && !s1.Open() {
      LastHandle(s, id);
      assert Step(c, s, Closed(id), a) == UpdateMode(c, s1, a).0;
      if !Usable(c, a) {
        UpdateTouches(c, s1, a);
      }
    } else {
      assert Step(c, s, Closed(id), a) == s1;
    }
  }

  /** Outside a client's own limit and changes by others, an event touches the hardware
      only while limiting is configured, active and readable, and only if it is an entry,
      an update, or the closing of the last handle. */
  lemma TouchesOnlyWhenActive(c: Config, s: State, e: Event, a: Answers)
    requires Counted(s) && !e.SetLimit? && !e.Outside?
    ensures Untouched(s, Step(c, s, e, a)) ||
      (Usable(c, a) && ((e.Enter? && a.pipe) || e.Update? || (e.Closed? && s.handles == map[e.id := 1])))
  {
    match e {
      case Enter(id) => UpdateTouches(c, AddHandle(s, id), a);
      case Update => UpdateTouches(c, s, a);
      case Closed(id) => ClosedTouches(c, s, id, a);
      case _ =>
    }
  }

  /** A client's limit goes to the hardware exactly while no handle is open. */
  lemma ClientLimitIff(c: Config, s: State, limit: nat, a: Answers)
    ensures var s1 := Step(c, s, SetLimit(limit), a);
      && (s1.log != s.log <==> !s.Open())
      && (!s.Open() ==> s1.log == s.log + [LimitWrite(limit, false, a.write)])
      && s1.device == (if s.Open() || a.write.Refused? then s.device else s.device.(limit := limit))
      && s1.previous == s.previous && s1.restartFan == s.restartFan
  {
  }

  /** The order of the calls: a limit is not overridden with itself; after a limit write
      that failed the fan is left alone; the fan's speed is set only once the fan is known
      to be stopped; and while a handle is open the fan is only ever stopped. */
  ghost predicate InOrder(s: State, s1: State, a: Answers) {
    && |s.log| <= |s1.log| <= |s.log| + 1
    && (|s1.log| > |s.log| && s1.Open() ==> a.read != Some(s1.log[|s.log|].limit))
    && (|s1.log| > |s.log| && !a.write.Done? ==>
         s1.device.fan == s.device.fan && s1.device.rpm == s.device.rpm && s1.restartFan == s.restartFan)
    && (s1.device.rpm != s.device.rpm ==>
         a.fanRead == Some(Bios) || (a.fanRead == Some(Os) && a.fanWrite.Done?))
    && (s1.device.fan != s.device.fan && s1.Open() ==> s1.device.fan.Bios? && a.fanRead == Some(Os))
  }

  lemma FanInOrder(c: Config, s: State, a: Answers)
    requires s.Open()
    ensures InOrder(s, HoldFan(c, s, a).0, a) && HoldFan(c, s, a).0.log == s.log
  {
  }

  lemma HoldInOrder(c: Config, s: State, a: Answers, current: NonZero)
    requires c.downloadLimit.Some? && s.Open() && a.read == Some(current)
    ensures InOrder(s, Hold(c, s, a, current).0, a)
  {
    var s1 := if s.previous.None? then s.(previous := Some(current)) else s;
    FanInOrder(c, s1, a);
    FanInOrder(c, WriteLimit(s1, c.downloadLimit.value, a.write), a);
  }

  lemma UpdateInOrder(c: Config, s: State, a: Answers)
    ensures InOrder(s, UpdateMode(c, s, a).0, a)
  {
    if s.Open() && c.downloadLimit.Some? && a.read.Some? && a.read.value != 0 {
      HoldInOrder(c, s, a, a.read.value);
    }
  }

  lemma EnterInOrder(c: Config, s: State, id: string, a: Answers)
    ensures InOrder(s, Step(c, s, Enter(id), a), a)
  {
    if c.downloadLimit.Some? && a.pipe {
      UpdateInOrder(c, AddHandle(s, id), a);
    }
  }

  lemma ClosedInOrder(c: Config, s: State, id: string, a: Answers)
    ensures InOrder(s, Step(c, s, Closed(id), a), a)
  {
    var s1 := DropHandle(s, id);
    if s.Open() && !s1.Open() {
      assert Step(c, s, Closed(id), a) == UpdateMode(c, s1, a).0;
      UpdateInOrder(c, s1, a);
    } else {
      assert Step(c, s, Closed(id), a) == s1;
    }
  }

  lemma CallsInOrder(c: Config, s: State, e: Event, a: Answers)
    requires !e.Outside?
    ensures InOrder(s, Step(c, s, e, a), a)
  {
    match e {
      case Enter(id) => EnterInOrder(c, s, id, a);
      case Update => UpdateInOrder(c, s, a);
      case Closed(id) => ClosedInOrder(c, s, id, a);
      case _ =>
    }
  }

  lemma UpdateSaves(c: Config, s: State, a: Answers)
    requires Usable(c, a)
    ensures UpdateMode(c, s, a).0.previous ==
      if s.Open() then (if s.previous.Some? then s.previous else a.read)
      else if a.write.Done? then None else s.previous
  {
    if s.Open() {
      var s1 := if s.previous.None? then s.(previous := Some(a.read.value)) else s;
      HoldFanKeepsHandles(c, s1, a);
      HoldFanKeepsHandles(c, WriteLimit(s1, c.downloadLimit.value, a.write), a);
    }
  }

  /** With limiting usable, an entry and an update of an open session save the limit read,
      unless one is saved, even if the override then fails; an update of no session gives
      the saved one up exactly when it was written back. */
  lemma LimitIsSaved(c: Config, s: State, e: Event, a: Answers)
    requires Usable(c, a) && ((e.Enter? && a.pipe) || e.Update?)
    ensures Step(c, s, e, a).previous ==
      if e.Enter? || s.Open() then (if s.previous.Some? then s.previous else a.read)
      else if a.write.Done? then None else s.previous
  {
    match e {
      case Enter(id) =>
        assert id in AddHandle(s, id).handles;
        UpdateSaves(c, AddHandle(s, id), a);
      case Update => UpdateSaves(c, s, a);
    }
  }

  /** The calls an entry makes all succeed, as far as they are made. */
  predicate EntryWorks(c: Config, a: Answers) {
    && c.downloadLimit.Some? && a.pipe && a.active.Some?
    && (a.active.value ==>
         && a.read.Some?
         && (a.read.value != 0 ==>
              && (a.read == Some(c.downloadLimit.value) || a.write.Done?)
              && (c.fanSpeed.Some? ==>
                   && a.fanRead.Some? && a.speedWrite.Done?
                   && (a.fanRead.value.Os? ==> a.fanWrite.Done?))))
  }

  /** How an entry is answered: without a handle when download mode is not configured,
      and with one exactly when its calls succeed. */
  lemma EntryIsAnswered(c: Config, s: State, id: string, a: Answers)
    ensures c.downloadLimit.None? ==> Told(c, s, Enter(id), a) == TheHandle(Ok(None))
    ensures c.downloadLimit.Some? && EntryWorks(c, a) ==> Told(c, s, Enter(id), a) == TheHandle(Ok(Some(id)))
    ensures c.downloadLimit.Some? && !EntryWorks(c, a) ==> Told(c, s, Enter(id), a) == TheHandle(Err)
  {
    assert id in AddHandle(s, id).handles;
  }

  // ----- refinement: the limit as clients see it -----

  /** What a client should see: the handles open, and the limit in force while
      none is. */
  datatype Ideal = Ideal(open: multiset<string>, base: nat)

  function IdealStep(c: Config, ideal: Ideal, e: Event, a: Answers): Ideal {
    match e
    case SetLimit(limit) =>
      if ideal.open == multiset{} && !a.write.Refused? then ideal.(base := limit) else ideal
    case Enter(id) =>
      if c.downloadLimit.None? || !a.pipe then ideal else ideal.(open := ideal.open + multiset{id})
    case Closed(id) => ideal.(open := ideal.open - multiset{id})
    case _ => ideal
  }

  function IdealRun(c: Config, ideal: Ideal, trace: Trace): Ideal
    decreases |trace|
  {
    if trace == [] then ideal
    else var n := |trace| - 1; IdealStep(c, IdealRun(c, ideal, trace[..n]), trace[n].0, trace[n].1)
  }

  /** The limit a client should see. */
  function Visible(c: Config, ideal: Ideal): nat {
    if ideal.open != multiset{} && c.downloadLimit.Some? then c.downloadLimit.value else ideal.base
  }

  /** The calls of `update_download_mode` that concern the limit succeed: limiting
      is active, a read gives the limit in force, and a write takes effect.  The fan
      calls may fail. A client's own write may be refused or misreported. */
  ghost predicate Sound(s: State, e: Event, a: Answers) {
    match e
    case SetLimit(limit) => limit > 0
    case Outside(_) => false
    case _ => a.active == Some(true) && a.read == Some(s.device.limit) && a.write.Done?
  }

  ghost predicate SoundRun(c: Config, s: State, trace: Trace)
    decreases |trace|
  {
    trace == [] ||
    (var n := |trace| - 1;
     SoundRun(c, s, trace[..n]) && Sound(Run(c, s, trace[..n]), trace[n].0, trace[n].1))
  }

  /** The service is where its clients expect it to be. */
  ghost predicate Settled(c: Config, s: State) {
    && Counted(s)
    && s.device.limit > 0
    && (c.downloadLimit.None? ==> !s.Open())
    && (if s.Open() then c.downloadLimit == Some(s.device.limit) else s.previous.None?)
  }

  /** An open session has its limit saved. */
  predicate Saves(s: State) { s.Open() ==> s.previous.Some? }

  ghost function Abs(s: State): Ideal {
    Ideal(s.tasks, if s.previous.Some? then s.previous.value else s.device.limit)
  }

  /** What `update_download_mode` does to the limit when its calls succeed. */
  lemma SoundUpdate(c: Config, s: State, a: Answers)
    requires c.downloadLimit.Some? && s.device.limit > 0 && Sound(s, Update, a)
    ensures var s1 := UpdateMode(c, s, a).0;
      && s1.handles == s.handles && s1.tasks == s.tasks
      && (s.Open() ==>
           && s1.device.limit == c.downloadLimit.value
           && s1.previous == if s.previous.Some? then s.previous else Some(s.device.limit))
      && (!s.Open() ==>
           && s1.device.limit == (if s.previous.Some? then s.previous.value else s.device.limit)
           && s1.previous.None?)
  {
    if s.Open() {
      var s1 := if s.previous.None? then s.(previous := Some(s.device.limit)) else s;
      HoldFanKeepsLimit(c, s1, a);
      HoldFanKeepsLimit(c, WriteLimit(s1, c.downloadLimit.value, a.write), a);
    }
  }

  lemma HoldFanKeepsLimit(c: Config, s: State, a: Answers)
    ensures var s1 := HoldFan(c, s, a).0;
      s1.handles == s.handles && s1.tasks == s.tasks && s1.previous == s.previous && s1.device.limit == s.device.limit
  {
  }

  lemma EnterRefines(c: Config, s: State, id: string, a: Answers)
    requires Settled(c, s) && Sound(s, Enter(id), a)
    ensures Settled(c, Step(c, s, Enter(id), a))
    ensures Saves(s) ==> Saves(Step(c, s, Enter(id), a))
    ensures Abs(Step(c, s, Enter(id), a)) == IdealStep(c, Abs(s), Enter(id), a)
  {
    StepKeepsCounted(c, s, Enter(id), a);
    if c.downloadLimit.Some? && a.pipe {
      var s1 := AddHandle(s, id);
      assert id in s1.handles;
      SoundUpdate(c, s1, a);
    }
  }

  lemma ClosedRefines(c: Config, s: State, id: string, a: Answers)
    requires Settled(c, s) && id in s.tasks && Sound(s, Closed(id), a)
    ensures Settled(c, Step(c, s, Closed(id), a))
    ensures Saves(s) ==> Saves(Step(c, s, Closed(id), a))
    ensures Abs(Step(c, s, Closed(id), a)) == IdealStep(c, Abs(s), Closed(id), a)
  {
    StepKeepsCounted(c, s, Closed(id), a);
    assert id in s.handles;
    var s1 := DropHandle(s, id);
    if !s1.Open() {
      SoundUpdate(c, s1, a);
    }
  }

  lemma UpdateRefines(c: Config, s: State, a: Answers)
    requires Settled(c, s) && Sound(s, Update, a)
    ensures Settled(c, UpdateMode(c, s, a).0)
    ensures Saves(s) ==> Saves(UpdateMode(c, s, a).0)
    ensures Abs(UpdateMode(c, s, a).0) == Abs(s)
  {
    if c.downloadLimit.Some? {
      SoundUpdate(c, s, a);
    }
  }

  lemma StepRefines(c: Config, s: State, e: Event, a: Answers)
    requires Settled(c, s) && Enabled(s, e) && Sound(s, e, a)
    ensures Settled(c, Step(c, s, e, a))
    ensures Saves(s) ==> Saves(Step(c, s, e, a))
    ensures Abs(Step(c, s, e, a)) == IdealStep(c, Abs(s), e, a)
  {
    match e {
      case SetLimit(limit) => OpenWhileTasksRun(s);
      case Enter(id) => EnterRefines(c, s, id, a);
      case Update => UpdateRefines(c, s, a);
      case Query(_) =>
      case Closed(id) => ClosedRefines(c, s, id, a);
    }
  }

  /** In every sound run, whatever the interleaving, the hardware limit is the
      download limit while a handle is open and otherwise the last limit a client
      set while none was; so closing the last handle restores exactly the limit in
      force when the first one opened. */
  lemma {:induction false} LimitRefinesIdeal(c: Config, s: State, trace: Trace)
    requires Settled(c, s) && Possible(c, s, trace) && SoundRun(c, s, trace)
    ensures Settled(c, Run(c, s, trace))
    ensures Saves(s) ==> Saves(Run(c, s, trace))
    ensures Abs(Run(c, s, trace)) == IdealRun(c, Abs(s), trace)
    ensures Run(c, s, trace).device.limit == Visible(c, IdealRun(c, Abs(s), trace))
    decreases |trace|
  {
    if trace != [] {
      var n := |trace| - 1;
      LimitRefinesIdeal(c, s, trace[..n]);
      StepRefines(c, Run(c, s, trace[..n]), trace[n].0, trace[n].1);
    }
    OpenWhileTasksRun(Run(c, s, trace));
  }

  /** What clients are told in a sound run: the limit they should see, and every handle as
      often as it is open. */
  lemma ClientsAreToldIdeal(c: Config, s: State, trace: Trace, question: Question, a: Answers)
    requires Settled(c, s) && Possible(c, s, trace) && SoundRun(c, s, trace)
    ensures Sound(Run(c, s, trace), Query(question), a) ==>
      var told, ideal := Told(c, Run(c, s, trace), Query(question), a), IdealRun(c, Abs(s), trace);
      && (question.Limit? ==> told == TheLimit(Some(Visible(c, ideal))))
      && (question.Activity? ==> told == TheActivity(Some(true)))
      && (question.Handles? ==>
           && told.TheHandles?
           && forall id :: ideal.open[id] == if id in told.handles then told.handles[id] else 0)
  {
    LimitRefinesIdeal(c, s, trace);
  }

  /** In every reachable state, failures included, a query is answered with what the
      hardware says, an error being passed on, or with the number of waiter tasks of each
      identifier. */
  lemma QueriesAreAnswered(c: Config, device: Device, trace: Trace, a: Answers)
    requires Possible(c, Start(device), trace)
    ensures var s := Run(c, Start(device), trace);
      && Told(c, s, Query(Limit), a) == TheLimit(a.read)
      && Told(c, s, Query(Activity), a) == TheActivity(a.active)
      && var handles := Told(c, s, Query(Handles), a);
         handles.TheHandles?
         && (forall id :: id in handles.handles <==> id in s.tasks)
         && (forall id :: id in handles.handles ==> handles.handles[id] == s.tasks[id])
  {
    HandlesCountTasks(c, Start(device), trace);
  }

  /** In a sound run every entry gets its handle, provided that the pipe and, where a fan
      speed is configured, the fan calls work. */
  lemma EntriesGetHandles(c: Config, s: State, trace: Trace, id: string, a: Answers)
    requires Settled(c, s) && Possible(c, s, trace) && SoundRun(c, s, trace) && c.downloadLimit.Some?
    ensures Sound(Run(c, s, trace), Enter(id), a) ==>
      (Told(c, Run(c, s, trace), Enter(id), a) == TheHandle(Ok(Some(id))) <==>
        a.pipe && (c.fanSpeed.None? ||
          (a.fanRead.Some? && a.speedWrite.Done? && (a.fanRead.value.Os? ==> a.fanWrite.Done?))))
  {
    LimitRefinesIdeal(c, s, trace);
    EntryIsAnswered(c, Run(c, s, trace), id, a);
  }

  /** However a run went so far, one sound `UpdateDownloadMode` on working hardware
      brings the service back to where its clients expect it: afterwards every sound
      run again shows them the ideal limit.  The limit to be restored is the saved one. */
  lemma OneUpdateSettles(c: Config, device: Device, trace: Trace, a: Answers)
    requires c.downloadLimit.Some? && Possible(c, Start(device), trace)
    requires Run(c, Start(device), trace).device.limit > 0
    requires Sound(Run(c, Start(device), trace), Update, a)
    ensures var s := Run(c, Start(device), trace);
      && Settled(c, Step(c, s, Update, a)) && Saves(Step(c, s, Update, a))
      && Abs(Step(c, s, Update, a)) == Abs(s)
  {
    var s := Run(c, Start(device), trace);
    HandlesCountTasks(c, Start(device), trace);
    SoundUpdate(c, s, a);
  }

  function Answer(read: nat, write: Call): Answers {
    Answers(Some(true), Some(read), write, None, Done, Done, true)
  }

  /** Whatever sound run follows, clients see the limits they should see. */
  ghost predicate ShowsIdeal(c: Config, s: State) {
    forall trace :: Possible(c, s, trace) && SoundRun(c, s, trace) ==>
      Run(c, s, trace).device.limit == Visible(c, IdealRun(c, Abs(s), trace))
  }

  lemma TwoEvents(c: Config, s: State, e0: (Event, Answers), e1: (Event, Answers))
    requires Enabled(s, e0.0) && Sound(s, e0.0, e0.1)
    requires var s1 := Step(c, s, e0.0, e0.1); Enabled(s1, e1.0) && Sound(s1, e1.0, e1.1)
    ensures Possible(c, s, [e0, e1]) && SoundRun(c, s, [e0, e1])
    ensures Run(c, s, [e0, e1]) == Step(c, Step(c, s, e0.0, e0.1), e1.0, e1.1)
    ensures forall ideal :: IdealRun(c, ideal, [e0, e1]) == IdealStep(c, IdealStep(c, ideal, e0.0, e0.1), e1.0, e1.1)
  {
    assert [e0][..0] == [];
    assert Run(c, s, [e0]) == Step(c, s, e0.0, e0.1) && Possible(c, s, [e0]) && SoundRun(c, s, [e0]);
    assert forall ideal :: IdealRun(c, ideal, [e0]) == IdealStep(c, ideal, e0.0, e0.1);
    assert [e0, e1][..1] == [e0];
  }

  /** From any state, every sound run shows clients what they should see exactly when the
      download limit is in force, if a handle is open, and no limit is left over from a
      session whose restore failed, if none is.  A limit left over comes back with the
      next update or session, over any newer choice. */
  lemma ShowsIdealIff(c: Config, s: State)
    requires c.downloadLimit.Some? && Counted(s) && s.device.limit > 0
    ensures ShowsIdeal(c, s) <==>
      if s.Open() then s.device.limit == c.downloadLimit.value else s.previous.None?
  {
    OpenWhileTasksRun(s);
    if Settled(c, s) {
      forall trace | Possible(c, s, trace) && SoundRun(c, s, trace)
        ensures Run(c, s, trace).device.limit == Visible(c, IdealRun(c, Abs(s), trace))
      {
        LimitRefinesIdeal(c, s, trace);
      }
    } else if s.Open() {
      assert Possible(c, s, []) && SoundRun(c, s, []);
      assert Run(c, s, []).device.limit != Visible(c, IdealRun(c, Abs(s), []));
    } else {
      var newer := s.previous.value + 1;
      var trace := [(SetLimit(newer), Answer(newer, Done)), (Update, Answer(newer, Done))];
      TwoEvents(c, s, trace[0], trace[1]);
      assert Run(c, s, trace).device.limit == s.previous.value;
      assert IdealRun(c, Abs(s), trace) == Ideal(s.tasks, newer);
    }
  }

  /** A session can begin without its limit: an entry whose override is refused is counted
      and shows the old limit, until an update succeeds. */
  lemma RefusedEntryShowsOldLimit(c: Config, s0: State)
    requires c == Config(Some(6), None) && s0 == Start(Device(15, Os, 0))
    ensures var s1 := Step(c, s0, Enter("steam"), Answer(15, Refused));
      && Told(c, s0, Enter("steam"), Answer(15, Refused)) == TheHandle(Err)
      && s1.Open() && s1.device.limit == 15
      && Step(c, s1, Update, Answer(15, Done)).device.limit == 6
  {
    assert "steam" in Step(c, s0, Enter("steam"), Answer(15, Refused)).handles;
  }

  /** The bound is real: when the restore after the last handle is refused, the saved
      limit survives, and a later update puts it back over the client's newer choice. */
  lemma FailedRestoreOverridesNewerLimit(c: Config, s0: State)
    requires c == Config(Some(6), None) && s0 == Start(Device(15, Os, 0))
    ensures var s1 := Step(c, s0, Enter("steam"), Answer(15, Done));
      var s2 := Step(c, s1, Closed("steam"), Answer(6, Refused));
      var s3 := Step(c, s2, SetLimit(20), Answer(6, Done));
      var s4 := Step(c, s3, Update, Answer(20, Done));
      && Enabled(s1, Closed("steam"))
      && s3.device.limit == 20 && s4.device.limit == 15
  {
    var s1 := Step(c, s0, Enter("steam"), Answer(15, Done));
    assert s1.handles == map["steam" := 1];
    assert s1.handles - {"steam"} == map[];
  }

  // ----- refinement: the fan -----

  /** The fan calls succeed and nobody else moves the fan. */
  ghost predicate FanSound(s: State, e: Event, a: Answers) {
    e.SetLimit? || (a.fanRead == Some(s.device.fan) && a.fanWrite.Done?)
  }

  ghost predicate FanSoundRun(c: Config, s: State, trace: Trace)
    decreases |trace|
  {
    trace == [] ||
    (var n := |trace| - 1;
     FanSoundRun(c, s, trace[..n]) && FanSound(Run(c, s, trace[..n]), trace[n].0, trace[n].1))
  }

  /** With `base` the state the fan should be in outside download mode: the fan is
      left to the firmware while a handle is open, and the service remembers to
      restart fan control exactly when it stopped it. */
  ghost predicate FanAgrees(s: State, base: FanState) {
    && s.device.fan == (if s.Open() then Bios else base)
    && (s.restartFan <==> s.Open() && base.Os?)
  }

  /** What a sound `update_download_mode` does to the fan. */
  lemma SoundUpdateFan(c: Config, s: State, a: Answers, base: FanState)
    requires c.downloadLimit.Some? && c.fanSpeed.Some? && s.device.limit > 0
    requires Sound(s, Update, a) && FanSound(s, Update, a)
    requires if s.restartFan then s.device.fan.Bios? && base.Os? else s.device.fan == base
    ensures FanAgrees(UpdateMode(c, s, a).0, base)
  {
    UpdateKeepsHandles(c, s, a);
    if s.Open() {
      var s1 := if s.previous.None? then s.(previous := Some(s.device.limit)) else s;
      HeldFan(c, s1, a, base);
      HeldFan(c, WriteLimit(s1, c.downloadLimit.value, a.write), a, base);
    }
  }

  lemma HeldFan(c: Config, s: State, a: Answers, base: FanState)
    requires c.fanSpeed.Some? && a.fanRead == Some(s.device.fan) && a.fanWrite.Done?
    requires if s.restartFan then s.device.fan.Bios? && base.Os? else s.device.fan == base
    ensures var s1 := HoldFan(c, s, a).0;
      s1.handles == s.handles && s1.device.fan.Bios? && (s1.restartFan <==> base.Os?)
  {
  }

  lemma StepKeepsFan(c: Config, s: State, e: Event, a: Answers, base: FanState)
    requires c.fanSpeed.Some? && Settled(c, s) && FanAgrees(s, base)
    requires Enabled(s, e) && Sound(s, e, a) && FanSound(s, e, a)
    ensures FanAgrees(Step(c, s, e, a), base)
  {
    match e {
      case SetLimit(_) =>
      case Enter(id) =>
        if c.downloadLimit.Some? && a.pipe {
          SoundUpdateFan(c, AddHandle(s, id), a, base);
        }
      case Update =>
        if c.downloadLimit.Some? {
          SoundUpdateFan(c, s, a, base);
        }
      case Query(_) =>
      case Closed(id) =>
        var s1 := DropHandle(s, id);
        assert id in s.handles;
        if !s1.Open() {
          SoundUpdateFan(c, s1, a, base);
        }
    }
  }

  /** However many handles and updates a sound run sees, the fan is in firmware
      control while any handle is open and back in its starting state otherwise,
      even if setting the fan speed fails. */
  lemma {:induction false} FanReturns(c: Config, s: State, trace: Trace)
    requires c.fanSpeed.Some? && Settled(c, s) && !s.Open() && !s.restartFan
    requires Possible(c, s, trace) && SoundRun(c, s, trace) && FanSoundRun(c, s, trace)
    ensures FanAgrees(Run(c, s, trace), s.device.fan)
    decreases |trace|
  {
    if trace != [] {
      var n := |trace| - 1;
      FanReturns(c, s, trace[..n]);
      LimitRefinesIdeal(c, s, trace[..n]);
      StepKeepsFan(c, Run(c, s, trace[..n]), trace[n].0, trace[n].1, s.device.fan);
    }
  }

  /** The configured speed is set while a handle is open. */
  ghost predicate SpeedHeld(c: Config, s: State) {
    s.Open() && c.fanSpeed.Some? ==> s.device.rpm == c.fanSpeed.value
  }

  lemma SoundUpdateSpeed(c: Config, s: State, a: Answers)
    requires c.downloadLimit.Some? && c.fanSpeed.Some? && s.device.limit > 0
    requires Sound(s, Update, a) && FanSound(s, Update, a) && a.speedWrite.Done?
    ensures SpeedHeld(c, UpdateMode(c, s, a).0)
  {
    UpdateKeepsHandles(c, s, a);
  }

  lemma StepHoldsSpeed(c: Config, s: State, e: Event, a: Answers)
    requires c.fanSpeed.Some? && Settled(c, s) && SpeedHeld(c, s) && Enabled(s, e)
    requires Sound(s, e, a) && FanSound(s, e, a) && a.speedWrite.Done?
    ensures SpeedHeld(c, Step(c, s, e, a))
  {
    match e {
      case Enter(id) =>
        if c.downloadLimit.Some? && a.pipe {
          SoundUpdateSpeed(c, AddHandle(s, id), a);
        }
      case Update =>
        if c.downloadLimit.Some? {
          SoundUpdateSpeed(c, s, a);
        }
      case Closed(id) => UpdateKeepsHandles(c, DropHandle(s, id), a);
      case _ =>
    }
  }

  /** With working fan calls the fan turns at the configured speed in every state in
      which a handle is open. */
  lemma {:induction false} FanSpeedIsHeld(c: Config, s: State, trace: Trace)
    requires c.fanSpeed.Some? && Settled(c, s) && SpeedHeld(c, s)
    requires Possible(c, s, trace) && SoundRun(c, s, trace) && FanSoundRun(c, s, trace)
    requires forall i :: 0 <= i < |trace| ==> trace[i].1.speedWrite.Done?
    ensures SpeedHeld(c, Run(c, s, trace))
    decreases |trace|
  {
    if trace != [] {
      var n := |trace| - 1;
      FanSpeedIsHeld(c, s, trace[..n]);
      LimitRefinesIdeal(c, s, trace[..n]);
      StepHoldsSpeed(c, Run(c, s, trace[..n]), trace[n].0, trace[n].1);
    }
  }

  // ----- the fan when its calls fail -----

  /** A fan read that succeeds is right. */
  ghost predicate FanReadRight(s: State, a: Answers) {
    a.fanRead.Some? ==> a.fanRead.value == s.device.fan
  }

  ghost predicate FanReadsRight(c: Config, s: State, trace: Trace)
    decreases |trace|
  {
    trace == [] ||
    (var n := |trace| - 1;
     FanReadsRight(c, s, trace[..n]) && FanReadRight(Run(c, s, trace[..n]), trace[n].1))
  }

  /** Fan control runs, or the service knows that it has to restart it. */
  predicate FanKept(s: State) { s.device.fan.Os? || s.restartFan }

  /** The state in which `update_download_mode` runs during an event, if it does. */
  function UpdatesFrom(c: Config, s: State, e: Event, a: Answers): Option<State> {
    match e
    case Enter(id) => if c.downloadLimit.Some? && a.pipe then Some(AddHandle(s, id)) else None
    case Update => Some(s)
    case Closed(id) => if s.Open() && !DropHandle(s, id).Open() then Some(DropHandle(s, id)) else None
    case _ => None
  }

  /** The two ways to lose fan control: a stop that takes effect but is reported as failed,
      and a restart that is refused. */
  predicate LosesFan(c: Config, s: State, e: Event, a: Answers) {
    && c.downloadLimit.Some? && UpdatesFrom(c, s, e, a).Some?
    && if UpdatesFrom(c, s, e, a).value.Open()
       then c.fanSpeed.Some? && a.fanRead == Some(Os) && a.fanWrite.Lost? && !s.restartFan
       else s.restartFan && a.fanWrite.Refused? && s.device.fan.Bios?
  }

  ghost predicate NoneLosesFan(c: Config, s: State, trace: Trace)
    decreases |trace|
  {
    trace == [] ||
    (var n := |trace| - 1;
     NoneLosesFan(c, s, trace[..n]) && !LosesFan(c, Run(c, s, trace[..n]), trace[n].0, trace[n].1))
  }

  /** A flag is only kept while a handle is open. */
  predicate FlagWhileOpen(s: State) { s.restartFan ==> s.Open() }

  lemma HoldKeepsFanIff(c: Config, s: State, a: Answers)
    requires c.fanSpeed.Some? && FanReadRight(s, a)
    ensures var s1 := HoldFan(c, s, a).0;
      && s1.handles == s.handles
      && (FanKept(s1) <==> FanKept(s) && !(a.fanRead == Some(Os) && a.fanWrite.Lost? && !s.restartFan))
  {
  }

  lemma UpdateKeepsFanIff(c: Config, s: State, a: Answers)
    requires c.downloadLimit.Some? && s.device.limit > 0 && Sound(s, Update, a) && FanReadRight(s, a)
    ensures var s1 := UpdateMode(c, s, a).0;
      && FlagWhileOpen(s1)
      && (FanKept(s1) <==> FanKept(s) && !LosesFan(c, s, Update, a))
  {
    UpdateKeepsHandles(c, s, a);
    if s.Open() && c.fanSpeed.Some? {
      var s1 := if s.previous.None? then s.(previous := Some(s.device.limit)) else s;
      HoldKeepsFanIff(c, s1, a);
      HoldKeepsFanIff(c, WriteLimit(s1, c.downloadLimit.value, a.write), a);
    }
  }

  lemma StepKeepsFanIff(c: Config, s: State, e: Event, a: Answers)
    requires Settled(c, s) && Enabled(s, e) && Sound(s, e, a) && FanReadRight(s, a) && FlagWhileOpen(s)
    ensures var s1 := Step(c, s, e, a);
      && FlagWhileOpen(s1)
      && (FanKept(s1) <==> FanKept(s) && !LosesFan(c, s, e, a))
  {
    match e {
      case Enter(id) =>
        if c.downloadLimit.Some? && a.pipe {
          UpdateKeepsFanIff(c, AddHandle(s, id), a);
        }
      case Update =>
        if c.downloadLimit.Some? {
          UpdateKeepsFanIff(c, s, a);
        }
      case Closed(id) =>
        assert id in s.handles;
        if !DropHandle(s, id).Open() {
          UpdateKeepsFanIff(c, DropHandle(s, id), a);
        }
      case _ =>
    }
  }

  /** Over every sound run from a state in which fan control runs and no handle is open,
      whatever fan calls fail: fan control is kept exactly while no event has lost it, and
      then it runs whenever no handle is open.  Once lost it stays lost. */
  lemma {:induction false} FanIsKeptIff(c: Config, s: State, trace: Trace)
    requires Settled(c, s) && s.device.fan.Os? && FlagWhileOpen(s)
    requires Possible(c, s, trace) && SoundRun(c, s, trace) && FanReadsRight(c, s, trace)
    ensures var s1 := Run(c, s, trace);
      && FlagWhileOpen(s1)
      && (FanKept(s1) <==> NoneLosesFan(c, s, trace))
      && (!s1.Open() ==> (s1.device.fan.Os? <==> NoneLosesFan(c, s, trace)))
    decreases |trace|
  {
    if trace != [] {
      var n := |trace| - 1;
      FanIsKeptIff(c, s, trace[..n]);
      LimitRefinesIdeal(c, s, trace[..n]);
      StepKeepsFanIff(c, Run(c, s, trace[..n]), trace[n].0, trace[n].1);
    }
  }

  function FanAnswer(read: nat, fan: FanState, call: Call): Answers {
    Answers(Some(true), Some(read), Done, Some(fan), call, Done, true)
  }

  /** No restart need be refused: after a stop that was reported as failed, the next
      update finds the fan stopped, takes it for the way it was, and closing the last
      handle leaves it so. */
  lemma MisreportedStopLosesFan(c: Config, s0: State)
    requires c == Config(Some(6), Some(3000)) && s0 == Start(Device(15, Os, 0))
    ensures var s1 := Step(c, s0, Enter("steam"), FanAnswer(15, Os, Lost));
      var s2 := Step(c, s1, Update, FanAnswer(6, Bios, Done));
      var s3 := Step(c, s2, Closed("steam"), FanAnswer(6, Bios, Done));
      && Enabled(s2, Closed("steam"))
      && !s3.Open() && s3.device.limit == 15 && s3.device.fan.Bios? && !s3.restartFan
  {
    var s1 := Step(c, s0, Enter("steam"), FanAnswer(15, Os, Lost));
    assert s1.handles == map["steam" := 1];
    assert s1.handles - {"steam"} == map[];
  }
}
