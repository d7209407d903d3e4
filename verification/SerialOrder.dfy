/** The filter that drops messages arriving out of order: `SerialOrderValidator`. */
module SerialOrder {
  import opened Base

  type Serials = map<string, NonZero>

  /** The parts of a D-Bus message header the filter looks at. */
  datatype Header = Header(sender: Option<string>, serial: NonZero)

  predicate Fresh(serials: Serials, h: Header) {
    h.sender.Some? && (h.sender.value in serials ==> serials[h.sender.value] < h.serial)
  }

  function Seen(serials: Serials, h: Header): Serials {
    if Fresh(serials, h) then serials[h.sender.value := h.serial] else serials
  }

  class SerialOrderValidator {
    var serials: Serials

    constructor ()
      ensures serials == map[]
    {
      serials := map[];
    }

    method CheckHeader(h: Header) returns (ok: bool)
      modifies this
      ensures ok == Fresh(old(serials), h)
      ensures serials == Seen(old(serials), h)
    {
      if h.sender.None? { return false; }
      var conn := h.sender.value;
      if conn in serials {
        if serials[conn] >= h.serial { return false; }
      }
      serials := serials[conn := h.serial];
      return true;
    }
  }

  // ----- whole traces -----

  /** The filter's memory after a trace. */
  function Memory(trace: seq<Header>): Serials {
    if trace == [] then map[]
    else Seen(Memory(trace[..|trace| - 1]), trace[|trace| - 1])
  }

  function Accepted(trace: seq<Header>): seq<Header> {
    if trace == [] then []
    else
      var n := |trace| - 1;
      Accepted(trace[..n]) + if Fresh(Memory(trace[..n]), trace[n]) then [trace[n]] else []
  }

  function From(trace: seq<Header>, sender: string): seq<Header> {
    if trace == [] then []
    else
      var n := |trace| - 1;
      From(trace[..n], sender) + if trace[n].sender == Some(sender) then [trace[n]] else []
  }

  /** The stored serial of a sender is the greatest serial it ever sent, accepted or
      not; a sender is known exactly when it has sent something. */
  lemma {:induction false} MemoryIsMaximum(trace: seq<Header>, sender: string)
    ensures forall i :: 0 <= i < |trace| && trace[i].sender == Some(sender) ==>
      sender in Memory(trace) && trace[i].serial <= Memory(trace)[sender]
    ensures sender in Memory(trace) ==>
      exists i :: 0 <= i < |trace| && trace[i] == Header(Some(sender), Memory(trace)[sender])
    decreases |trace|
  {
    if trace != [] {
      var n := |trace| - 1;
      MemoryIsMaximum(trace[..n], sender);
      if sender in Memory(trace) {
        if trace[n].sender == Some(sender) && Fresh(Memory(trace[..n]), trace[n]) {
          assert trace[n] == Header(Some(sender), Memory(trace)[sender]);
        } else {
          var i :| 0 <= i < n && trace[..n][i] == Header(Some(sender), Memory(trace[..n])[sender]);
          assert trace[i] == Header(Some(sender), Memory(trace)[sender]);
        }
      }
    }
  }

  /** A message is accepted exactly when it names its sender and its serial is
      greater than every serial that sender used before it. */
  lemma {:induction false} FreshIsRunningMaximum(trace: seq<Header>, h: Header)
    ensures Fresh(Memory(trace), h) <==>
      h.sender.Some? &&
      forall i :: 0 <= i < |trace| && trace[i].sender == h.sender ==> trace[i].serial < h.serial
  {
    if h.sender.Some? {
      MemoryIsMaximum(trace, h.sender.value);
    }
  }

  lemma {:induction false} MemoryFrom(trace: seq<Header>, sender: string)
    ensures sender in Memory(trace) <==> sender in Memory(From(trace, sender))
    ensures sender in Memory(trace) ==> Memory(trace)[sender] == Memory(From(trace, sender))[sender]
    decreases |trace|
  {
    if trace != [] {
      var n := |trace| - 1;
      MemoryFrom(trace[..n], sender);
      if trace[n].sender == Some(sender) {
        var own := From(trace, sender);
        assert own[..|own| - 1] == From(trace[..n], sender);
      } else {
        assert From(trace, sender) == From(trace[..n], sender);
      }
    }
  }

  /** Senders never affect each other: keeping one sender's messages and then
      filtering gives the same as filtering and then keeping them. */
  lemma {:induction false} SendersAreIndependent(trace: seq<Header>, sender: string)
    ensures From(Accepted(trace), sender) == Accepted(From(trace, sender))
    decreases |trace|
  {
    if trace != [] {
      var n := |trace| - 1;
      var kept := Accepted(trace[..n]);
      SendersAreIndependent(trace[..n], sender);
      MemoryFrom(trace[..n], sender);
      assert (kept + [trace[n]])[..|kept|] == kept;
      assert kept + [] == kept;
      if trace[n].sender == Some(sender) {
        var own := From(trace, sender);
        assert own[..|own| - 1] == From(trace[..n], sender);
      } else {
        assert From(trace, sender) == From(trace[..n], sender);
      }
    }
  }
}
