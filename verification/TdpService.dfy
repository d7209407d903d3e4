/**
 `TdpManagerService` as the object it is: fields updated in place and calls on the
 hardware, each method equal to the corresponding function of `DownloadMode`.
 */
module TdpService {
  import opened Base
  import opened DownloadMode

  /** The hardware behind the limit manager and the root daemon's fan calls. */
  class Hardware {
    var device: Device
    ghost var log: seq<LimitWrite>

    constructor (device: Device)
      ensures this.device == device && log == []
    {
      this.device := device;
      log := [];
    }

    method SetTdpLimit(limit: nat, call: Call, ghost open: bool) returns (ok: bool)
      modifies this
      ensures ok == call.Done?
      ensures device == if call.Refused? then old(device) else old(device).(limit := limit)
      ensures log == old(log) + [LimitWrite(limit, open, call)]
    {
      if !call.Refused? {
        device := device.(limit := limit);
      }
      log := log + [LimitWrite(limit, open, call)];
      ok := call.Done?;
    }

    method SetFanControlState(fan: FanState, call: Call) returns (ok: bool)
      modifies this`device
      ensures ok == call.Done?
      ensures device == if call.Refused? then old(device) else old(device).(fan := fan)
    {
      if !call.Refused? {
        device := device.(fan := fan);
      }
      ok := call.Done?;
    }

    method SetFanSpeed(rpm: nat, call: Call) returns (ok: bool)
      modifies this`device
      ensures ok == call.Done?
      ensures device == if call.Refused? then old(device) else old(device).(rpm := rpm)
    {
      if !call.Refused? {
        device := device.(rpm := rpm);
      }
      ok := call.Done?;
    }
  }

  class TdpManagerService {
    const config: Config
    const hardware: Hardware
    var downloadHandles: map<string, nat>
    var downloadSet: multiset<string>
    var previousLimit: Option<NonZero>
    var restartFanControlService: bool

    ghost function Now(): State
      reads this, hardware
    {
      State(downloadHandles, downloadSet, previousLimit, restartFanControlService, hardware.device, hardware.log)
    }

    constructor (config: Config, device: Device)
      ensures Now() == Start(device) && this.config == config && fresh(hardware)
    {
      this.config := config;
      downloadHandles, downloadSet := map[], multiset{};
      previousLimit, restartFanControlService := None, false;
      hardware := new Hardware(device);
    }

    method UpdateDownloadMode(a: Answers) returns (ok: bool)
      modifies this, hardware
      ensures (Now(), ok) == UpdateMode(config, old(Now()), a)
    {
      if a.active.None? { return false; }
      if !a.active.value { return true; }
      if config.downloadLimit.None? { return true; }
      var downloadModeLimit := config.downloadLimit.value;
      if a.read.None? { return false; }
      if a.read.value == 0 { return true; }
      var currentLimit: NonZero := a.read.value;

      if downloadHandles == map[] {
        if previousLimit.Some? {
          ok := hardware.SetTdpLimit(previousLimit.value, a.write, false);
          if !ok { return false; }
          previousLimit := None;
        }
        if restartFanControlService {
          var _ := hardware.SetFanControlState(Os, a.fanWrite);
          restartFanControlService := false;
        }
      } else {
        if previousLimit.None? {
          previousLimit := Some(currentLimit);
        }
        if currentLimit != downloadModeLimit {
          ok := hardware.SetTdpLimit(downloadModeLimit, a.write, true);
          if !ok { return false; }
        }
        if config.fanSpeed.Some? {
          if a.fanRead.None? { return false; }
          if a.fanRead.value.Os? {
            ok := hardware.SetFanControlState(Bios, a.fanWrite);
            if !ok { return false; }
            restartFanControlService := true;
          }
          ok := hardware.SetFanSpeed(config.fanSpeed.value, a.speedWrite);
          if !ok { return false; }
        }
      }
      return true;
    }

    /** The reply is `None` when download mode is not configured. */
    method GetDownloadModeHandle(id: string, a: Answers) returns (reply: Result<Option<string>>)
      modifies this, hardware
      ensures Now() == Step(config, old(Now()), Enter(id), a)
      ensures TheHandle(reply) == Told(config, old(Now()), Enter(id), a)
      ensures reply == Ok(None) <==> config.downloadLimit.None?
      // Even an entry that is answered with an error leaves its handle counted
      // until its waiter task ends.
      ensures config.downloadLimit.Some? && a.pipe ==> downloadSet == old(downloadSet) + multiset{id}
    {
      if config.downloadLimit.None? { return Ok(None); }
      if !a.pipe { return Err; }
      downloadHandles := downloadHandles[id := if id in downloadHandles then downloadHandles[id] + 1 else 1];
      downloadSet := downloadSet + multiset{id};
      ghost var counted := Now();
      assert counted == AddHandle(old(Now()), id);
      UpdateKeepsHandles(config, counted, a);
      var ok := UpdateDownloadMode(a);
      reply := if ok then Ok(Some(id)) else Err;
    }

    method HandleCommand(e: Event, a: Answers) returns (reply: Reply)
      requires !e.Closed?
      modifies this, hardware
      ensures Now() == Step(config, old(Now()), e, a)
      ensures reply == Told(config, old(Now()), e, a)
    {
      reply := Nothing;
      match e {
        case SetLimit(limit) =>
          if downloadHandles == map[] {
            var _ := hardware.SetTdpLimit(limit, a.write, false);
          }
        case Enter(id) =>
          var handle := GetDownloadModeHandle(id, a);
          reply := TheHandle(handle);
        case Update =>
          var _ := UpdateDownloadMode(a);
        case Query(Limit) =>
          reply := TheLimit(a.read);
        case Query(Activity) =>
          reply := TheActivity(a.active);
        case Query(Handles) =>
          reply := TheHandles(downloadHandles);
        case Outside(device) =>
          hardware.device := device;
      }
    }

    method HandleClosed(id: string, a: Answers)
      requires id in downloadSet
      modifies this, hardware
      ensures Now() == Step(config, old(Now()), Closed(id), a)
    {
      ghost var dropped := DropHandle(Now(), id);
      downloadSet := downloadSet - multiset{id};
      if id in downloadHandles {
        if downloadHandles[id] == 1 {
          downloadHandles := downloadHandles - {id};
          assert Now() == dropped;
          if downloadHandles == map[] {
            var _ := UpdateDownloadMode(a);
          }
        } else {
          downloadHandles := downloadHandles[id := if downloadHandles[id] == 0 then 0 else downloadHandles[id] - 1];
          assert Now() == dropped;
        }
      }
    }

    /** What one round of the loop does. */
    method Handle(e: Event, a: Answers)
      requires Enabled(Now(), e)
      modifies this, hardware
      ensures Now() == Step(config, old(Now()), e, a)
    {
      match e {
        case Closed(id) => HandleClosed(id, a);
        case command => var _ := HandleCommand(command, a);
      }
    }

    /** The service loop: an error is logged and the loop goes on. */
    method RunLoop(trace: Trace)
      requires Possible(config, Now(), trace)
      modifies this, hardware
      ensures Now() == Run(config, old(Now()), trace)
    {
      ghost var start := Now();
      for i := 0 to |trace|
        invariant Now() == Run(config, start, trace[..i])
      {
        PossiblePrefix(config, start, trace, i + 1);
        assert trace[..i + 1][..i] == trace[..i];
        Handle(trace[i].0, trace[i].1);
      }
      assert trace[..|trace|] == trace;
    }
  }

  lemma PossiblePrefix(c: Config, s: State, trace: Trace, i: nat)
    requires Possible(c, s, trace) && i <= |trace|
    ensures Possible(c, s, trace[..i])
    decreases |trace|
  {
    if i == |trace| {
      assert trace[..i] == trace;
    } else {
      PossiblePrefix(c, s, trace[..|trace| - 1], i);
      assert trace[..|trace| - 1][..i] == trace[..i];
    }
  }
}
