/** The hwmon limit manager: `AmdgpuHwmonTdpLimitManager`, watts kept in microwatts as text. */
module Hwmon {
  import opened Base
  import opened Text
  import DownloadMode

  /** What `set_tdp_limit` writes. */
  function Stored(limit: nat): string { Decimal(limit) + "000000" }

  predicate IsSpace(c: char) { c == ' ' || '\t' <= c <= '\r' }

  function TrimEnd(s: string): string {
    if s != [] && IsSpace(s[|s| - 1]) then TrimEnd(s[..|s| - 1]) else s
  }

  /** What `get_tdp_limit` makes of the file's contents; `Err` when they do not parse. */
  function Loaded(contents: string): Result<nat> {
    match ParseU32(TrimEnd(contents))
    case None => Err
    case Some(microwatts) => Ok(microwatts / 1_000_000)
  }

  lemma StoredValue(limit: nat)
    ensures AllDigits(Stored(limit)) && Value(Stored(limit)) == limit * 1_000_000
  {
    var s0 := Decimal(limit);
    DecimalValue(limit);
    AppendZero(s0);
    AppendZero(s0 + "0");
    AppendZero(s0 + "0" + "0");
    AppendZero(s0 + "0" + "0" + "0");
    AppendZero(s0 + "0" + "0" + "0" + "0");
    AppendZero(s0 + "0" + "0" + "0" + "0" + "0");
    assert Stored(limit) == s0 + "0" + "0" + "0" + "0" + "0" + "0";
  }

  lemma {:induction false} TrimmedNewlines(s: string, space: string)
    requires s != [] && !IsSpace(s[|s| - 1])
    requires forall i :: 0 <= i < |space| ==> IsSpace(space[i])
    ensures TrimEnd(s + space) == s
    decreases |space|
  {
    if space == [] {
      assert s + space == s;
    } else {
      var shorter := space[..|space| - 1];
      assert (s + space)[..|s + space| - 1] == s + shorter;
      TrimmedNewlines(s, shorter);
    }
  }

  /** Reading back a stored limit gives that limit exactly up to 4294 W, whatever
      white space the kernel adds after it; anything above no longer reads as u32. */
  lemma GetAfterSet(limit: nat, space: string)
    requires forall i :: 0 <= i < |space| ==> IsSpace(space[i])
    ensures Loaded(Stored(limit) + space) == if limit <= 4294 then Ok(limit) else Err
  {
    DecimalValue(limit);
    StoredValue(limit);
    TrimmedNewlines(Stored(limit), space);
    assert Stored(limit)[0] == Decimal(limit)[0];
  }

  /** The download-mode service may count on this manager's reads exactly up to that
      bound: with the file holding the limit in force, a working update is sound. */
  lemma ReadsAreSoundIff(s: DownloadMode.State, a: DownloadMode.Answers, space: string)
    requires forall i :: 0 <= i < |space| ==> IsSpace(space[i])
    requires a.active == Some(true) && a.write.Done?
    requires a.read == match Loaded(Stored(s.device.limit) + space) case Ok(limit) => Some(limit) case Err => None
    ensures DownloadMode.Sound(s, DownloadMode.Update, a) <==> s.device.limit <= 4294
  {
    GetAfterSet(s.device.limit, space);
  }
}
