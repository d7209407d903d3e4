/**
 The ALIB limit kept in two daemons.  The hardware cannot be read, so the user
 daemon and the root daemon each cache the limit: the root daemon when it has
 written the ALIB command, the user daemon when the root daemon has answered `Ok`.
 */
module TdpCache {
  import opened Base
  import opened AlibCodec
  import opened SerialOrder
  import AlibScript

  /** What never changes at run time. */
  datatype Config = Config(alib: AlibConfig, managed: bool)

  datatype State = State(
    userCache: U32,             // cached_limit in the user daemon
    rootCache: U32,             // cached_limit in the root daemon
    serials: Serials,           // the root daemon's SerialOrderValidator
    device: Option<string>)     // the last command that reached /proc/acpi/call

  /** One `SetTdpLimit` call from the user daemon to the root daemon, with what the
      outside world answers on the way. */
  datatype Exchange = Exchange(
    limit: U32,
    header: Header,
    active: Option<bool>,         // does /proc/acpi/call exist
    range: Option<(U32, U32)>,    // the configured limits
    write: Call,
    reply: bool)                  // does the reply reach the user daemon

  /** What reaches the root daemon. */
  datatype Event =
    | Limit(x: Exchange)      // SetTdpLimit, from the user daemon
    | Other(header: Header)   // another call that passes the same filter: the GPU profile,
                              // performance level and clock, and the charge level
  {
    function From(): Header { if Limit? then x.header else header }
  }

  function CommandFor(c: Config, limit: U32): string
    requires !Overflows(c.alib, limit)
  {
    Command(c.alib.alibMethod, Payload(ParamsFor(c.alib, limit)))
  }

  /** The root daemon gets as far as writing the command. */
  predicate Writes(c: Config, s: State, x: Exchange) {
    && Fresh(s.serials, x.header)
    && c.managed
    && x.active == Some(true)
    && x.range.Some? && x.range.value.0 <= x.limit <= x.range.value.1
    && !Overflows(c.alib, x.limit)
  }

  predicate Applies(c: Config, s: State, x: Exchange) { Writes(c, s, x) && x.write.Done? }

  /** The root daemon answers `Ok`, also when it discards a stale message. */
  predicate AnswersOk(c: Config, s: State, x: Exchange) {
    !Fresh(s.serials, x.header) || Applies(c, s, x)
  }

  function Step(c: Config, s: State, x: Exchange): State {
    State(
      if AnswersOk(c, s, x) && x.reply then x.limit else s.userCache,
      if Applies(c, s, x) then x.limit else s.rootCache,
      Seen(s.serials, x.header),
      if Writes(c, s, x) && !x.write.Refused? then Some(CommandFor(c, x.limit)) else s.device)
  }

  function Act(c: Config, s: State, e: Event): State {
    match e
    case Limit(x) => Step(c, s, x)
    case Other(header) => s.(serials := Seen(s.serials, header))
  }

  function Run(c: Config, s: State, trace: seq<Event>): State
    decreases |trace|
  {
    if trace == [] then s else Act(c, Run(c, s, trace[..|trace| - 1]), trace[|trace| - 1])
  }

  /** Both daemons start from the bottom of the configured range. */
  function Start(min: U32): State { State(min, min, map[], None) }

  // ----- the daemons as objects -----

  class RootManager {
    const config: Config
    const order: SerialOrderValidator
    var cachedLimit: U32
    var acpiCall: Option<string>

    constructor (config: Config, min: U32)
      ensures this.config == config && cachedLimit == min && acpiCall == None && order.serials == map[]
      ensures fresh(order)
    {
      this.config := config;
      cachedLimit, acpiCall := min, None;
      order := new SerialOrderValidator();
    }

    /** `AcpiCallAlibTdpLimitManager::set_tdp_limit` */
    method Apply(x: Exchange) returns (ok: bool)
      modifies this
      ensures var writes := x.active == Some(true)
          && x.range.Some? && x.range.value.0 <= x.limit <= x.range.value.1
          && !Overflows(config.alib, x.limit);
        && ok == (writes && x.write.Done?)
        && cachedLimit == (if ok then x.limit else old(cachedLimit))
        && acpiCall == (if writes && !x.write.Refused? then Some(CommandFor(config, x.limit)) else old(acpiCall))
    {
      if x.active != Some(true) { return false; }
      if x.range.None? || !(x.range.value.0 <= x.limit <= x.range.value.1) { return false; }
      var payload := BuildPayload(config.alib, x.limit);
      if payload.Err? { return false; }
      if x.write.Refused? { return false; }
      acpiCall := Some(Command(config.alib.alibMethod, payload.value));
      if x.write.Lost? { return false; }
      cachedLimit := x.limit;
      return true;
    }

    /** `SteamOSManager::set_tdp_limit` */
    method SetTdpLimit(x: Exchange) returns (ok: bool)
      modifies this, order
      // For any cache in the user daemon, which the root daemon knows nothing of.
      ensures forall user: U32 ::
        var s := State(user, old(cachedLimit), old(order.serials), old(acpiCall));
        && ok == AnswersOk(config, s, x)
        && cachedLimit == Step(config, s, x).rootCache
        && order.serials == Step(config, s, x).serials
        && acpiCall == Step(config, s, x).device
    {
      var inOrder := order.CheckHeader(x.header);
      if !inOrder { return true; }
      if !config.managed { return false; }
      ok := Apply(x);
    }
  }

  class UserManager {
    const root: RootManager
    var cachedLimit: U32

    ghost function Now(): State
      reads this, root, root.order
    {
      State(cachedLimit, root.cachedLimit, root.order.serials, root.acpiCall)
    }

    constructor (config: Config, min: U32)
      ensures Now() == Start(min) && root.config == config && fresh(root) && fresh(root.order)
    {
      cachedLimit := min;
      root := new RootManager(config, min);
    }

    /** `TdpManagerService::set_tdp_limit` for a manager that needs root. */
    method SetTdpLimit(x: Exchange) returns (ok: bool)
      modifies this, root, root.order
      ensures Now() == Step(root.config, old(Now()), x)
      ensures ok == (AnswersOk(root.config, old(Now()), x) && x.reply)
    {
      ok := root.SetTdpLimit(x);
      ok := ok && x.reply;
      if ok {
        cachedLimit := x.limit;
      }
    }

    /** The root daemon's filter sees another call of the same interface. */
    method OtherCall(header: Header) returns (inOrder: bool)
      modifies root.order
      ensures Now() == Act(root.config, old(Now()), Other(header))
      ensures inOrder == Fresh(old(Now()).serials, header)
    {
      inOrder := root.order.CheckHeader(header);
    }
  }

  // ----- coherence of the caches -----

  predicate Coherent(s: State) { s.userCache == s.rootCache }

  /** An exchange of another limit that only one daemon takes over: a stale one whose `Ok`
      arrives, or one that was applied and whose answer is lost. */
  predicate Splits(c: Config, s: State, x: Exchange) {
    x.limit != s.rootCache && if Fresh(s.serials, x.header) then Applies(c, s, x) && !x.reply else x.reply
  }

  lemma StaysCoherentIff(c: Config, s: State, x: Exchange)
    requires Coherent(s)
    ensures Coherent(Step(c, s, x)) <==> !Splits(c, s, x)
  {
  }

  ghost predicate NoneSplits(c: Config, s: State, trace: seq<Event>)
    decreases |trace|
  {
    trace == [] ||
    (var n := |trace| - 1;
     NoneSplits(c, s, trace[..n]) && !(trace[n].Limit? && Splits(c, Run(c, s, trace[..n]), trace[n].x)))
  }

  ghost predicate AlwaysCoherent(c: Config, s: State, trace: seq<Event>)
    decreases |trace|
  {
    Coherent(Run(c, s, trace)) && (trace != [] ==> AlwaysCoherent(c, s, trace[..|trace| - 1]))
  }

  /** Over every run, whoever calls and whatever fails: the caches are equal at every
      moment exactly when no exchange splits them. */
  lemma {:induction false} AlwaysCoherentIff(c: Config, s: State, trace: seq<Event>)
    requires Coherent(s)
    ensures AlwaysCoherent(c, s, trace) <==> NoneSplits(c, s, trace)
    decreases |trace|
  {
    if trace != [] {
      var n := |trace| - 1;
      AlwaysCoherentIff(c, s, trace[..n]);
      if AlwaysCoherent(c, s, trace[..n]) && trace[n].Limit? {
        assert Coherent(Run(c, s, trace[..n]));
        StaysCoherentIff(c, Run(c, s, trace[..n]), trace[n].x);
      }
    }
  }

  function Headers(trace: seq<Event>): (h: seq<Header>)
    ensures |h| == |trace|
    ensures forall i :: 0 <= i < |trace| ==> h[i] == trace[i].From()
  {
    seq(|trace|, i requires 0 <= i < |trace| => trace[i].From())
  }

  /** Every limit comes from one sender and is answered, and that sender's serials grow
      over all its calls.  Other senders may do what they like with the other calls. */
  ghost predicate SoleCaller(trace: seq<Event>, sender: string) {
    && (forall i :: 0 <= i < |trace| && trace[i].Limit? ==> trace[i].x.reply && trace[i].From().sender == Some(sender))
    && (forall i, j :: 0 <= i < j < |trace| && trace[i].From().sender == trace[j].From().sender == Some(sender) ==>
         trace[i].From().serial < trace[j].From().serial)
  }

  lemma {:induction false} SerialsAreMemory(c: Config, min: U32, trace: seq<Event>)
    ensures Run(c, Start(min), trace).serials == Memory(Headers(trace))
    decreases |trace|
  {
    if trace != [] {
      var n := |trace| - 1;
      SerialsAreMemory(c, min, trace[..n]);
      assert Headers(trace)[..n] == Headers(trace[..n]);
    }
  }

  /** A request that a working daemon carries out, whatever its serial. */
  predicate Acceptable(c: Config, x: Exchange) {
    && c.managed && x.active == Some(true)
    && x.range.Some? && x.range.value.0 <= x.limit <= x.range.value.1
    && !Overflows(c.alib, x.limit) && x.write.Done?
  }

  /** The limit of the last such request. */
  function LastAccepted(c: Config, min: U32, trace: seq<Event>): U32 {
    if trace == [] then min
    else
      var n := |trace| - 1;
      if trace[n].Limit? && Acceptable(c, trace[n].x) then trace[n].x.limit else LastAccepted(c, min, trace[..n])
  }

  /** With a sole caller both caches hold the limit of the last acceptable request after
      every command, whether it was accepted, rejected or failed. */
  lemma {:induction false} CachesAgree(c: Config, min: U32, trace: seq<Event>, sender: string)
    requires SoleCaller(trace, sender)
    ensures Coherent(Run(c, Start(min), trace))
    ensures Run(c, Start(min), trace).userCache == LastAccepted(c, min, trace)
    decreases |trace|
  {
    if trace != [] {
      var n := |trace| - 1;
      var s := Run(c, Start(min), trace[..n]);
      CachesAgree(c, min, trace[..n], sender);
      SerialsAreMemory(c, min, trace[..n]);
      FreshIsRunningMaximum(Headers(trace[..n]), trace[n].From());
      if trace[n].Limit? {
        assert Fresh(s.serials, trace[n].x.header);
        StaysCoherentIff(c, s, trace[n].x);
      }
    }
  }

  /** The serial hypothesis is needed: a stale message is answered `Ok`, and the user
      daemon then believes a limit nobody applied. */
  lemma StaleSerialSplitsCaches(c: Config, s: State, x: Exchange)
    requires c == Config(AlibScript.GPD_CONFIG, true) && s == State(15, 15, map[":1.7" := 9], None)
    requires x == Exchange(20, Header(Some(":1.7"), 8), Some(true), Some((4, 28)), Done, true)
    ensures Step(c, s, x).userCache == 20 && Step(c, s, x).rootCache == 15
  {
  }

  // ----- agreement with the hardware -----

  /** The last command the hardware took is the one for the root daemon's cache. */
  ghost predicate DeviceAgrees(c: Config, s: State) {
    s.device.Some? ==> !Overflows(c.alib, s.rootCache) && s.device == Some(CommandFor(c, s.rootCache))
  }

  lemma SameCommandSameValues(c: Config, a: U32, b: U32)
    requires !Overflows(c.alib, a) && !Overflows(c.alib, b)
    ensures CommandFor(c, a) == CommandFor(c, b) <==> Product(a, c.alib.powerScale) == Product(b, c.alib.powerScale)
  {
    CommandMeansParams(c.alib, a);
    CommandMeansParams(c.alib, b);
    if CommandFor(c, a) == CommandFor(c, b) {
      assert ParamsFor(c.alib, a)[0] == ParamsFor(c.alib, b)[0];
    }
  }

  /** An exchange keeps cache and hardware in agreement exactly when it is not a write
      of other power values that took effect but was reported as failed. */
  lemma DeviceStaysInAgreementIff(c: Config, s: State, x: Exchange)
    requires DeviceAgrees(c, s)
    ensures DeviceAgrees(c, Step(c, s, x)) <==>
      !(Writes(c, s, x) && x.write.Lost?
        && Product(x.limit, c.alib.powerScale) != Product(s.rootCache, c.alib.powerScale))
  {
    if Writes(c, s, x) && x.write.Lost? && !Overflows(c.alib, s.rootCache) {
      SameCommandSameValues(c, x.limit, s.rootCache);
    }
  }

  /** A run of a sole caller without misreported writes: once any set has succeeded, the
      last ALIB command decodes to the limit both daemons cache, times the power scale. */
  lemma {:induction false} HardwareHoldsTheCachedLimit(c: Config, min: U32, trace: seq<Event>, sender: string, k: nat)
    requires SoleCaller(trace, sender)
    requires forall i :: 0 <= i < |trace| && trace[i].Limit? ==> !trace[i].x.write.Lost?
    requires k < |trace| && trace[k].Limit? && Acceptable(c, trace[k].x)
    ensures var s := Run(c, Start(min), trace);
      && s.device.Some? && !Overflows(c.alib, s.userCache)
      && ParseCommand(c.alib.alibMethod, s.device.value) == Some(ParamsFor(c.alib, s.userCache))
  {
    CachesAgree(c, min, trace, sender);
    HardwareAgrees(c, min, trace);
    SerialsAreMemory(c, min, trace[..k]);
    FreshIsRunningMaximum(Headers(trace[..k]), trace[k].From());
    DeviceStaysKnown(c, min, trace, k);
    CommandMeansParams(c.alib, Run(c, Start(min), trace).userCache);
  }

  lemma {:induction false} HardwareAgrees(c: Config, min: U32, trace: seq<Event>)
    requires forall i :: 0 <= i < |trace| && trace[i].Limit? ==> !trace[i].x.write.Lost?
    ensures DeviceAgrees(c, Run(c, Start(min), trace))
    decreases |trace|
  {
    if trace != [] {
      var n := |trace| - 1;
      HardwareAgrees(c, min, trace[..n]);
      if trace[n].Limit? {
        DeviceStaysInAgreementIff(c, Run(c, Start(min), trace[..n]), trace[n].x);
      }
    }
  }

  lemma {:induction false} DeviceStaysKnown(c: Config, min: U32, trace: seq<Event>, k: nat)
    requires k < |trace| && trace[k].Limit? && Applies(c, Run(c, Start(min), trace[..k]), trace[k].x)
    ensures Run(c, Start(min), trace).device.Some?
    decreases |trace|
  {
    var n := |trace| - 1;
    if k < n {
      assert trace[..n][..k] == trace[..k];
      DeviceStaysKnown(c, min, trace[..n], k);
    }
  }
}
