/**
 The ALIB power command of the GPD handhelds: a length-prefixed list of one-byte
 identifiers with little-endian values, printed in hexadecimal for /proc/acpi/call.
 `append_alib_param`, `build_acpi_call_alib_payload` and `build_acpi_call_command`.
 */
module AlibCodec {
  import opened Base
  import opened Text

  type Byte = x: int | 0 <= x < 256
  type U32 = x: int | 0 <= x < U32_LIMIT

  datatype Param = Param(id: Byte, value: U32)

  datatype AlibConfig = AlibConfig(
    alibMethod: string,
    stapmLimitId: Byte, fastLimitId: Byte, slowLimitId: Byte, slowTimeId: Byte,
    stapmTimeId: Byte, tempTargetId: Byte, skinLimitId: Byte,
    powerScale: U32, timeScale: U32, tempScale: U32,
    slowTime: U32, stapmTime: U32, tempTarget: U32)

  // ----- bytes -----

  function LeBytes(v: U32): (b: seq<Byte>)
    ensures |b| == 4
  {
    [v % 0x100, v / 0x100 % 0x100, v / 0x1_0000 % 0x100, v / 0x100_0000]
  }

  function LeBytes16(v: nat): (b: seq<Byte>)
    requires v < 0x1_0000
    ensures |b| == 2
  {
    [v % 0x100, v / 0x100]
  }

  function FromLe(b: seq<Byte>): nat {
    if b == [] then 0 else b[0] as int + 0x100 * FromLe(b[1..])
  }

  function Horner(b0: int, b1: int, b2: int, b3: int): int {
    b0 + 0x100 * (b1 + 0x100 * (b2 + 0x100 * b3))
  }

  lemma FromLeIsHorner(b: seq<Byte>)
    requires |b| == 4
    ensures FromLe(b) == Horner(b[0], b[1], b[2], b[3])
  {
    var b1: int, b2: int, b3: int := b[1], b[2], b[3];
    assert FromLe(b[1..][1..][1..]) == b3;
    assert FromLe(b[1..][1..]) == b2 + 0x100 * b3;
    assert FromLe(b[1..]) == b1 + 0x100 * (b2 + 0x100 * b3);
  }

  lemma LowByte(r: int, q: int)
    requires 0 <= r < 0x100
    ensures (r + 0x100 * q) % 0x100 == r && (r + 0x100 * q) / 0x100 == q
  {
  }

  lemma HornerDigits(b0: Byte, b1: Byte, b2: Byte, b3: Byte)
    ensures 0 <= Horner(b0, b1, b2, b3) < U32_LIMIT
    ensures LeBytes(Horner(b0, b1, b2, b3)) == [b0, b1, b2, b3]
  {
    var i0: int, i1: int, i2: int, i3: int := b0, b1, b2, b3;
    var v := Horner(b0, b1, b2, b3);
    var q2 := i2 + 0x100 * i3;
    var q1 := i1 + 0x100 * q2;
    LowByte(i0, q1);
    LowByte(i1, q2);
    LowByte(i2, i3);
    assert v / 0x1_0000 == q1 / 0x100;
    assert v / 0x100_0000 == q2 / 0x100;
  }

  lemma FromLe4(b: seq<Byte>)
    requires |b| == 4
    ensures FromLe(b) < U32_LIMIT && LeBytes(FromLe(b)) == b
  {
    FromLeIsHorner(b);
    HornerDigits(b[0], b[1], b[2], b[3]);
  }

  lemma FromLe2(b: seq<Byte>)
    requires |b| == 2
    ensures FromLe(b) < 0x1_0000 && LeBytes16(FromLe(b)) == b
  {
    var b0: int, b1: int := b[0], b[1];
    assert FromLe(b[1..]) == b1;
  }

  lemma HornerOfDigits(v: U32)
    ensures Horner(v % 0x100, v / 0x100 % 0x100, v / 0x1_0000 % 0x100, v / 0x100_0000) == v
  {
    var q1, q2, q3 := v / 0x100, v / 0x1_0000, v / 0x100_0000;
    assert v == v % 0x100 + 0x100 * q1;
    assert q1 == q1 % 0x100 + 0x100 * q2;
    assert q2 == q2 % 0x100 + 0x100 * q3;
  }

  lemma FromLeBytes(v: U32)
    ensures FromLe(LeBytes(v)) == v
  {
    FromLeIsHorner(LeBytes(v));
    HornerOfDigits(v);
  }

  lemma FromLeBytes16(v: nat)
    requires v < 0x1_0000
    ensures FromLe(LeBytes16(v)) == v
  {
    var b1: int := LeBytes16(v)[1];
    assert FromLe(LeBytes16(v)[1..]) == b1;
  }

  // ----- the payload -----

  function EncodeParams(params: seq<Param>): seq<Byte> {
    if params == [] then []
    else EncodeParams(params[..|params| - 1]) + [params[|params| - 1].id] + LeBytes(params[|params| - 1].value)
  }

  /** A payload starts with its own length. */
  function Payload(params: seq<Param>): seq<Byte>
    requires 2 + 5 * |params| < 0x1_0000
  {
    LeBytes16(2 + 5 * |params|) + EncodeParams(params)
  }

  function DecodeParams(b: seq<Byte>): seq<Param>
    requires |b| % 5 == 0
  {
    if b == [] then []
    else
      FromLe4(b[|b| - 4..]);
      DecodeParams(b[..|b| - 5]) + [Param(b[|b| - 5], FromLe(b[|b| - 4..]))]
  }

  /** What a reader of the format makes of some bytes. */
  function Decode(b: seq<Byte>): Option<seq<Param>> {
    if |b| < 2 || FromLe(b[..2]) != |b| || (|b| - 2) % 5 != 0 then None
    else Some(DecodeParams(b[2..]))
  }

  lemma {:induction false} EncodedLength(params: seq<Param>)
    ensures |EncodeParams(params)| == 5 * |params|
  {
    if params != [] {
      EncodedLength(params[..|params| - 1]);
    }
  }

  lemma DecodeLast(init: seq<Byte>, last: Param)
    requires |init| % 5 == 0
    ensures var b := init + [last.id] + LeBytes(last.value);
      |b| % 5 == 0 && DecodeParams(b) == DecodeParams(init) + [last]
  {
    var b := init + [last.id] + LeBytes(last.value);
    assert b[..|b| - 5] == init;
    assert b[|b| - 4..] == LeBytes(last.value);
    FromLeBytes(last.value);
  }

  lemma {:induction false} DecodeEncodeParams(params: seq<Param>)
    ensures |EncodeParams(params)| % 5 == 0
    ensures DecodeParams(EncodeParams(params)) == params
  {
    EncodedLength(params);
    if params != [] {
      var last := params[|params| - 1];
      var init := EncodeParams(params[..|params| - 1]);
      DecodeEncodeParams(params[..|params| - 1]);
      DecodeLast(init, last);
    }
  }

  /** Decoding a payload gives its parameters back, in order. */
  lemma DecodePayload(params: seq<Param>)
    requires 2 + 5 * |params| < 0x1_0000
    ensures |Payload(params)| == 2 + 5 * |params|
    ensures Decode(Payload(params)) == Some(params)
  {
    EncodedLength(params);
    DecodeEncodeParams(params);
    var b := Payload(params);
    assert b[..2] == LeBytes16(|b|) && b[2..] == EncodeParams(params);
    FromLeBytes16(|b|);
  }

  lemma {:induction false} EncodeDecodeParams(b: seq<Byte>)
    requires |b| % 5 == 0
    ensures EncodeParams(DecodeParams(b)) == b
    ensures 5 * |DecodeParams(b)| == |b|
  {
    if b != [] {
      var n := |b|;
      EncodeDecodeParams(b[..n - 5]);
      FromLe4(b[n - 4..]);
      var params := DecodeParams(b);
      assert params[..|params| - 1] == DecodeParams(b[..n - 5]);
      assert b == b[..n - 5] + [b[n - 5]] + b[n - 4..];
    }
  }

  /** Only payloads decode: the encoding of a list of parameters is unique. */
  lemma PayloadOfDecoded(b: seq<Byte>)
    requires Decode(b).Some?
    ensures |b| < 0x1_0000 && 2 + 5 * |Decode(b).value| == |b|
    ensures Payload(Decode(b).value) == b
  {
    FromLe2(b[..2]);
    EncodeDecodeParams(b[2..]);
    assert b == b[..2] + b[2..];
  }

  // ----- building it -----

  function Product(a: nat, b: nat): nat { a * b }

  function CheckedMul(a: U32, b: U32): Option<U32> {
    if Product(a, b) < U32_LIMIT then Some(Product(a, b)) else None
  }

  predicate Overflows(config: AlibConfig, limit: U32) {
    || Product(limit, config.powerScale) >= U32_LIMIT
    || Product(config.slowTime, config.timeScale) >= U32_LIMIT
    || Product(config.stapmTime, config.timeScale) >= U32_LIMIT
    || Product(config.tempTarget, config.tempScale) >= U32_LIMIT
  }

  function Params(config: AlibConfig, power: U32, slowTime: U32, stapmTime: U32, tempTarget: U32): seq<Param> {
    [Param(config.stapmLimitId, power),
     Param(config.fastLimitId, power),
     Param(config.slowLimitId, power),
     Param(config.slowTimeId, slowTime),
     Param(config.stapmTimeId, stapmTime),
     Param(config.tempTargetId, tempTarget),
     Param(config.skinLimitId, power)]
  }

  /** The seven parameters a limit asks for. */
  function ParamsFor(config: AlibConfig, limit: U32): seq<Param>
    requires !Overflows(config, limit)
  {
    Params(config,
      Product(limit, config.powerScale),
      Product(config.slowTime, config.timeScale),
      Product(config.stapmTime, config.timeScale),
      Product(config.tempTarget, config.tempScale))
  }

  class PayloadBuffer {
    var bytes: seq<Byte>
    ghost var params: seq<Param>

    ghost predicate Valid()
      reads this
    {
      |params| <= 7 && bytes == LeBytes16(2 + 5 * 7) + EncodeParams(params)
    }

    constructor ()
      ensures Valid() && params == []
    {
      bytes := LeBytes16(2 + 5 * 7);
      params := [];
    }

    method AppendAlibParam(id: Byte, value: U32)
      requires Valid() && |params| < 7
      modifies this
      ensures Valid() && params == old(params) + [Param(id, value)]
    {
      bytes := bytes + [id];
      bytes := bytes + LeBytes(value);
      params := params + [Param(id, value)];
      assert params[..|params| - 1] == old(params);
    }
  }

  method AppendLimits(payload: PayloadBuffer, config: AlibConfig, power: U32)
    requires payload.Valid() && |payload.params| <= 4
    modifies payload
    ensures payload.Valid()
    ensures payload.params == old(payload.params)
      + [Param(config.stapmLimitId, power), Param(config.fastLimitId, power), Param(config.slowLimitId, power)]
  {
    payload.AppendAlibParam(config.stapmLimitId, power);
    payload.AppendAlibParam(config.fastLimitId, power);
    payload.AppendAlibParam(config.slowLimitId, power);
  }

  method AppendTimes(payload: PayloadBuffer, config: AlibConfig, slowTime: U32, stapmTime: U32)
    requires payload.Valid() && |payload.params| <= 5
    modifies payload
    ensures payload.Valid()
    ensures payload.params == old(payload.params)
      + [Param(config.slowTimeId, slowTime), Param(config.stapmTimeId, stapmTime)]
  {
    payload.AppendAlibParam(config.slowTimeId, slowTime);
    payload.AppendAlibParam(config.stapmTimeId, stapmTime);
  }

  method FillPayload(config: AlibConfig, power: U32, slowTime: U32, stapmTime: U32, tempTarget: U32)
    returns (bytes: seq<Byte>)
    ensures bytes == Payload(Params(config, power, slowTime, stapmTime, tempTarget))
  {
    var payload := new PayloadBuffer();
    AppendLimits(payload, config, power);
    AppendTimes(payload, config, slowTime, stapmTime);
    payload.AppendAlibParam(config.tempTargetId, tempTarget);
    payload.AppendAlibParam(config.skinLimitId, power);
    assert payload.params == Params(config, power, slowTime, stapmTime, tempTarget);
    bytes := payload.bytes;
  }

  /** Building fails exactly when one of the four scaled products overflows; otherwise
      the payload is 37 bytes that decode to the seven parameters. */
  method BuildPayload(config: AlibConfig, limit: U32) returns (r: Result<seq<Byte>>)
    ensures r.Err? <==> Overflows(config, limit)
    ensures r.Ok? ==> |r.value| == 37 && r.value == Payload(ParamsFor(config, limit))
    ensures r.Ok? ==> Decode(r.value) == Some(ParamsFor(config, limit))
  {
    var power := CheckedMul(limit, config.powerScale);
    if power.None? { return Err; }
    var slowTime := CheckedMul(config.slowTime, config.timeScale);
    if slowTime.None? { return Err; }
    var stapmTime := CheckedMul(config.stapmTime, config.timeScale);
    if stapmTime.None? { return Err; }
    var tempTarget := CheckedMul(config.tempTarget, config.tempScale);
    if tempTarget.None? { return Err; }

    var bytes := FillPayload(config, power.value, slowTime.value, stapmTime.value, tempTarget.value);
    DecodePayload(ParamsFor(config, limit));
    r := Ok(bytes);
  }

  // ----- the command text -----

  function HexText(b: seq<Byte>): string {
    if b == [] then "" else Hex02(b[0]) + HexText(b[1..])
  }

  function Command(alibMethod: string, payload: seq<Byte>): string {
    alibMethod + " 0x0c b" + HexText(payload)
  }

  function ParseHexText(s: string): Option<seq<Byte>> {
    if s == "" then Some([])
    else if |s| < 2 || !IsHexDigit(s[0]) || !IsHexDigit(s[1]) then None
    else
      var rest := ParseHexText(s[2..]);
      if rest.None? then None else Some([16 * HexValue(s[0]) + HexValue(s[1])] + rest.value)
  }

  /** What the firmware makes of a command for a method. */
  function ParseCommand(alibMethod: string, text: string): Option<seq<Param>> {
    var prefix := alibMethod + " 0x0c b";
    if !(prefix <= text) then None
    else
      match ParseHexText(text[|prefix|..])
      case None => None
      case Some(payload) => Decode(payload)
  }

  lemma ParseFirst(b: Byte, rest: string)
    ensures |Hex02(b)| == 2
    ensures ParseHexText(Hex02(b) + rest) ==
      match ParseHexText(rest) case None => None case Some(bytes) => Some([b] + bytes)
  {
    Hex02Byte(b);
    assert (Hex02(b) + rest)[2..] == rest;
  }

  lemma {:induction false} ParseHexTextOfBytes(b: seq<Byte>)
    ensures ParseHexText(HexText(b)) == Some(b)
    ensures |HexText(b)| == 2 * |b|
  {
    if b != [] {
      ParseHexTextOfBytes(b[1..]);
      ParseFirst(b[0], HexText(b[1..]));
      assert b == [b[0]] + b[1..];
    }
  }

  /** The text written for a limit means exactly the seven parameters. */
  lemma CommandMeansParams(config: AlibConfig, limit: U32)
    requires !Overflows(config, limit)
    ensures ParseCommand(config.alibMethod, Command(config.alibMethod, Payload(ParamsFor(config, limit))))
      == Some(ParamsFor(config, limit))
  {
    var params := ParamsFor(config, limit);
    ParseHexTextOfBytes(Payload(params));
    DecodePayload(params);
    var prefix := config.alibMethod + " 0x0c b";
    assert Command(config.alibMethod, Payload(params))[|prefix|..] == HexText(Payload(params));
  }

  /** What the firmware is told, in numbers: three limits and the skin limit in the power
      scale, two times in the time scale and the temperature in its own. */
  lemma CommandSetsScaledValues(config: AlibConfig, limit: U32)
    ensures Overflows(config, limit) <==>
      || limit * config.powerScale >= 0x1_0000_0000
      || config.slowTime * config.timeScale >= 0x1_0000_0000
      || config.stapmTime * config.timeScale >= 0x1_0000_0000
      || config.tempTarget * config.tempScale >= 0x1_0000_0000
    ensures !Overflows(config, limit) ==>
      var text := Command(config.alibMethod, Payload(ParamsFor(config, limit)));
      var power := limit * config.powerScale;
      ParseCommand(config.alibMethod, text) == Some([
        Param(config.stapmLimitId, power), Param(config.fastLimitId, power), Param(config.slowLimitId, power),
        Param(config.slowTimeId, config.slowTime * config.timeScale),
        Param(config.stapmTimeId, config.stapmTime * config.timeScale),
        Param(config.tempTargetId, config.tempTarget * config.tempScale),
        Param(config.skinLimitId, power)])
  {
    if !Overflows(config, limit) {
      CommandMeansParams(config, limit);
    }
  }

  lemma {:induction false} HexTextConcat(a: seq<Byte>, b: seq<Byte>)
    ensures HexText(a + b) == HexText(a) + HexText(b)
  {
    if a == [] {
      assert a + b == b;
    } else {
      assert (a + b)[1..] == a[1..] + b;
      HexTextConcat(a[1..], b);
    }
  }
}
