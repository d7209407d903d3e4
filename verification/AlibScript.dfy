/** The shell script that sets the limit of a GPD Win Mini by itself, with its own
    shift-and-mask encoding: gpd-set-tdp.sh. */
module AlibScript {
  import opened Base
  import opened Text
  import opened AlibCodec

  const ALIB_METHOD := "\\_SB.ALIB"

  /** The GPD device file, gpd-win-mini.toml. */
  const GPD_CONFIG := AlibConfig(
    ALIB_METHOD, 0x05, 0x06, 0x07, 0x08, 0x01, 0x03, 0x2e,
    1000, 1, 1, 10, 100, 85)

  // ----- the shell's bit operators on non-negative numbers -----

  function Pow2(k: nat): (p: nat)
    ensures p > 0
  {
    if k == 0 then 1 else 2 * Pow2(k - 1)
  }

  function ShiftRight(v: nat, k: nat): nat {
    if k == 0 then v else ShiftRight(v / 2, k - 1)
  }

  function BitAnd(a: nat, b: nat): nat {
    if a == 0 || b == 0 then 0
    else 2 * BitAnd(a / 2, b / 2) + (if a % 2 == 1 && b % 2 == 1 then 1 else 0)
  }

  lemma MulBounds(d: int, m: nat)
    ensures d >= 1 ==> d * m >= m
    ensures d <= -1 ==> d * m <= -(m as int)
  {
  }

  lemma DivModUnique(v: nat, m: nat, q: nat, r: nat)
    requires r < m && v == q * m + r
    ensures v / m == q && v % m == r
  {
    MulBounds(v / m - q, m);
  }

  lemma DivModDouble(v: nat, m: nat)
    requires m > 0
    ensures v / (2 * m) == v / 2 / m
    ensures v % (2 * m) == 2 * (v / 2 % m) + v % 2
  {
    var q, r := v / 2 / m, v / 2 % m;
    assert v / 2 == q * m + r;
    assert v == q * (2 * m) + (2 * r + v % 2);
    DivModUnique(v, 2 * m, q, 2 * r + v % 2);
  }

  lemma MaskStep(v: nat, half: nat, mask: nat)
    requires mask == 2 * half + 1
    ensures BitAnd(v, mask) == 2 * BitAnd(v / 2, half) + v % 2
  {
    assert mask / 2 == half && mask % 2 == 1;
  }

  /** Masking with k ones keeps the low k bits. */
  lemma {:induction false} MaskIsMod(v: nat, k: nat)
    ensures BitAnd(v, Pow2(k) - 1) == v % Pow2(k)
  {
    if k > 0 {
      MaskIsMod(v / 2, k - 1);
      MaskStep(v, Pow2(k - 1) - 1, Pow2(k) - 1);
      DivModDouble(v, Pow2(k - 1));
    }
  }

  lemma {:induction false} ShiftIsDiv(v: nat, k: nat)
    ensures ShiftRight(v, k) == v / Pow2(k)
  {
    if k > 0 {
      ShiftIsDiv(v / 2, k - 1);
      DivModDouble(v, Pow2(k - 1));
    }
  }

  lemma Pow2Values()
    ensures Pow2(8) == 0x100 && Pow2(16) == 0x1_0000 && Pow2(24) == 0x100_0000
  {
    assert Pow2(4) == 16;
    assert Pow2(8) == 16 * Pow2(4);
    assert Pow2(12) == 16 * Pow2(8);
    assert Pow2(16) == 16 * Pow2(12);
    assert Pow2(20) == 16 * Pow2(16);
    assert Pow2(24) == 16 * Pow2(20);
  }

  /** Byte k of a number, as the script takes it and as division gives it. */
  lemma ShiftAndMask(v: nat)
    ensures BitAnd(v, 0xff) == v % 0x100
    ensures BitAnd(ShiftRight(v, 8), 0xff) == v / 0x100 % 0x100
    ensures BitAnd(ShiftRight(v, 16), 0xff) == v / 0x1_0000 % 0x100
    ensures BitAnd(ShiftRight(v, 24), 0xff) == v / 0x100_0000 % 0x100
  {
    Pow2Values();
    ShiftIsDiv(v, 8);
    ShiftIsDiv(v, 16);
    ShiftIsDiv(v, 24);
    MaskIsMod(v, 8);
    MaskIsMod(v / 0x100, 8);
    MaskIsMod(v / 0x1_0000, 8);
    MaskIsMod(v / 0x100_0000, 8);
  }

  // ----- the script -----

  function FourHex(a: nat, b: nat, c: nat, d: nat): string { Hex02(a) + Hex02(b) + Hex02(c) + Hex02(d) }

  /** `u32_le_hex` */
  function U32LeHex(v: nat): string {
    FourHex(
      BitAnd(v, 0xff),
      BitAnd(ShiftRight(v, 8), 0xff),
      BitAnd(ShiftRight(v, 16), 0xff),
      BitAnd(ShiftRight(v, 24), 0xff))
  }

  /** An identifier and a value to print after it. */
  datatype Field = Field(id: nat, value: nat)

  /** `param` */
  function ParamHex(f: Field): string { Hex02(f.id) + U32LeHex(f.value) }

  /** The text of successive appends. */
  function Joined(pieces: seq<string>): string {
    if pieces == [] then "" else Joined(pieces[..|pieces| - 1]) + pieces[|pieces| - 1]
  }

  function ScriptFields(power: nat): seq<Field> {
    [Field(0x05, power), Field(0x06, power), Field(0x07, power),
     Field(0x08, 10), Field(0x01, 100), Field(0x03, 85), Field(0x2e, power)]
  }

  function Pieces(fields: seq<Field>): (pieces: seq<string>)
    ensures |pieces| == |fields|
  {
    seq(|fields|, i requires 0 <= i < |fields| => ParamHex(fields[i]))
  }

  function TwoHex(a: nat, b: nat): string { Hex02(a) + Hex02(b) }

  function SizeHex(size: nat): string {
    TwoHex(BitAnd(size, 0xff), BitAnd(ShiftRight(size, 8), 0xff))
  }

  /** What the script writes for a wattage: the size and the fields, joined. */
  function Script(watts: nat): string {
    ALIB_METHOD + " 0x0c b" + SizeHex(37) + Joined(Pieces(ScriptFields(watts * 1000)))
  }

  /** The shell variable `PARAMS`. */
  class Params {
    var text: string
    ghost var pieces: seq<string>

    ghost predicate Valid()
      reads this
    {
      text == Joined(pieces)
    }

    constructor ()
      ensures Valid() && pieces == []
    {
      text, pieces := "", [];
    }

    /** `PARAMS+=…` */
    method Append(piece: string)
      requires Valid()
      modifies this
      ensures Valid() && pieces == old(pieces) + [piece]
    {
      text := text + piece;
      pieces := pieces + [piece];
      assert pieces[..|pieces| - 1] == old(pieces);
    }
  }

  method JoinSeven(p: seq<string>) returns (text: string)
    requires |p| == 7
    ensures text == Joined(p)
  {
    var params := new Params();
    params.Append(p[0]);
    params.Append(p[1]);
    params.Append(p[2]);
    params.Append(p[3]);
    params.Append(p[4]);
    params.Append(p[5]);
    params.Append(p[6]);
    assert params.pieces == p;
    text := params.text;
  }

  method ScriptCommand(watts: nat) returns (text: string)
    ensures text == Script(watts)
  {
    var params := JoinSeven(Pieces(ScriptFields(watts * 1000)));
    text := ALIB_METHOD + " 0x0c b" + SizeHex(37) + params;
  }

  lemma HexTextFirst(a: Byte, rest: seq<Byte>)
    ensures HexText([a] + rest) == Hex02(a) + HexText(rest)
  {
    assert ([a] + rest)[1..] == rest;
  }

  lemma HexText1(a: Byte)
    ensures HexText([a]) == Hex02(a)
  {
    assert [a][1..] == [];
  }

  lemma HexText2(a: Byte, b: Byte)
    ensures HexText([a, b]) == Hex02(a) + Hex02(b)
  {
    HexTextFirst(a, [b]);
    HexText1(b);
    assert [a, b] == [a] + [b];
  }

  lemma HexText4(a: Byte, b: Byte, c: Byte, d: Byte)
    ensures HexText([a, b, c, d]) == Hex02(a) + Hex02(b) + Hex02(c) + Hex02(d)
  {
    HexTextFirst(a, [b, c, d]);
    HexTextFirst(b, [c, d]);
    HexTextFirst(c, [d]);
    HexText1(d);
    assert [a, b, c, d] == [a] + [b, c, d] && [b, c, d] == [b] + [c, d] && [c, d] == [c] + [d];
    Associate(Hex02(b), Hex02(c), Hex02(d));
    Associate(Hex02(a), Hex02(b) + Hex02(c), Hex02(d));
    Associate(Hex02(a), Hex02(b), Hex02(c));
  }

  lemma FourHexEqual(a: nat, b: nat, c: nat, d: nat, bytes: seq<Byte>)
    requires bytes == [a, b, c, d]
    ensures FourHex(a, b, c, d) == HexText(bytes)
  {
    HexText4(bytes[0], bytes[1], bytes[2], bytes[3]);
  }

  lemma U32LeHexIsLeBytes(v: U32)
    ensures U32LeHex(v) == HexText(LeBytes(v))
  {
    ShiftAndMask(v);
    TopByte(v);
    FourHexEqual(BitAnd(v, 0xff), BitAnd(ShiftRight(v, 8), 0xff),
      BitAnd(ShiftRight(v, 16), 0xff), BitAnd(ShiftRight(v, 24), 0xff), LeBytes(v));
  }

  lemma TopByte(v: U32)
    ensures v / 0x100_0000 % 0x100 == v / 0x100_0000
  {
  }

  lemma Associate(a: string, b: string, c: string)
    ensures a + b + c == a + (b + c)
  {
  }

  lemma ParamHexIsEncoded(init: seq<Byte>, p: Param)
    ensures HexText(init + [p.id] + LeBytes(p.value)) == HexText(init) + ParamHex(Field(p.id, p.value))
  {
    U32LeHexIsLeBytes(p.value);
    HexTextConcat(init + [p.id], LeBytes(p.value));
    HexTextConcat(init, [p.id]);
    HexText1(p.id);
    Associate(HexText(init), Hex02(p.id), U32LeHex(p.value));
  }

  lemma JoinedLast(fields: seq<Field>)
    requires fields != []
    ensures var n := |fields| - 1;
      Joined(Pieces(fields)) == Joined(Pieces(fields[..n])) + ParamHex(fields[n])
  {
    var n := |fields| - 1;
    assert Pieces(fields)[..n] == Pieces(fields[..n]);
  }

  lemma {:induction false} JoinedIsEncoded(fields: seq<Field>, params: seq<Param>)
    requires |fields| == |params|
    requires forall i :: 0 <= i < |fields| ==> fields[i] == Field(params[i].id, params[i].value)
    ensures Joined(Pieces(fields)) == HexText(EncodeParams(params))
  {
    if fields != [] {
      var n := |fields| - 1;
      JoinedLast(fields);
      JoinedIsEncoded(fields[..n], params[..n]);
      ParamHexIsEncoded(EncodeParams(params[..n]), params[n]);
    }
  }

  lemma SmallQuotient(size: nat)
    requires size < 0x1_0000
    ensures size / 0x100 % 0x100 == size / 0x100
  {
  }

  lemma TwoHexEqual(a: nat, b: nat, bytes: seq<Byte>)
    requires bytes == [a, b]
    ensures TwoHex(a, b) == HexText(bytes)
  {
    HexText2(bytes[0], bytes[1]);
  }

  lemma SizeIsEncoded(size: nat)
    requires size < 0x1_0000
    ensures SizeHex(size) == HexText(LeBytes16(size))
  {
    ShiftAndMask(size);
    SmallQuotient(size);
    TwoHexEqual(BitAnd(size, 0xff), BitAnd(ShiftRight(size, 8), 0xff), LeBytes16(size));
  }

  /** For every wattage the daemon can encode, the script and the daemon write the
      same command. */
  lemma ScriptAgreesWithDaemon(watts: U32)
    requires !Overflows(GPD_CONFIG, watts)
    ensures Script(watts) == Command(GPD_CONFIG.alibMethod, Payload(ParamsFor(GPD_CONFIG, watts)))
  {
    var params := ParamsFor(GPD_CONFIG, watts);
    JoinedIsEncoded(ScriptFields(watts * 1000), params);
    SizeIsEncoded(37);
    HexTextConcat(LeBytes16(37), EncodeParams(params));
  }
}
