/** Unit names as object path elements: `escape` in systemd.rs. */
module UnitName {
  import opened Base
  import opened Text

  predicate IsAlphanumeric(c: char) {
    'a' <= c <= 'z' || 'A' <= c <= 'Z' || '0' <= c <= '9'
  }

  function EscapeChar(c: char): string {
    if IsAlphanumeric(c) then [c] else "_" + Hex02(c as int)
  }

  function Escaped(name: string): string {
    if name == [] then [] else EscapeChar(name[0]) + Escaped(name[1..])
  }

  method Escape(name: string) returns (parts: string)
    ensures parts == Escaped(name)
  {
    parts := "";
    for i := 0 to |name|
      invariant parts == Escaped(name[..i])
    {
      EscapedConcat(name[..i], [name[i]]);
      assert name[..i + 1] == name[..i] + [name[i]];
      assert Escaped([name[i]]) == EscapeChar(name[i]);
      if IsAlphanumeric(name[i]) {
        parts := parts + [name[i]];
      } else {
        parts := parts + ("_" + Hex02(name[i] as int));
      }
    }
    assert name[..|name|] == name;
  }

  /** Reads `_` and two hexadecimal digits as one character, and other letters and
      digits as themselves. */
  function Unescape(s: string): Option<string> {
    if s == [] then Some([])
    else if s[0] == '_' then
      if |s| < 3 || !IsHexDigit(s[1]) || !IsHexDigit(s[2]) then None
      else
        var rest := Unescape(s[3..]);
        if rest.None? then None else Some([(16 * HexValue(s[1]) + HexValue(s[2])) as char] + rest.value)
    else if !IsAlphanumeric(s[0]) then None
    else
      var rest := Unescape(s[1..]);
      if rest.None? then None else Some([s[0]] + rest.value)
  }

  predicate IsLatin1(name: string) { forall i :: 0 <= i < |name| ==> name[i] as int <= 0xFF }

  /** One element of a path under "Valid Object Paths" of the D-Bus Specification. */
  predicate IsPathElement(s: string) {
    s != [] && forall i :: 0 <= i < |s| ==> IsAlphanumeric(s[i]) || s[i] == '_'
  }

  lemma {:induction false} EscapedConcat(a: string, b: string)
    ensures Escaped(a + b) == Escaped(a) + Escaped(b)
  {
    if a == [] {
      assert a + b == b;
    } else {
      assert (a + b)[1..] == a[1..] + b;
      EscapedConcat(a[1..], b);
    }
  }

  lemma {:induction false} EscapedIsPathElement(name: string)
    ensures IsPathElement(Escaped(name)) <==> name != []
  {
    if name != [] {
      HexDigitsOnly(name[0] as int);
      EscapedIsPathElement(name[1..]);
    }
  }

  lemma UnescapeHead(c: char, tail: string)
    requires c as int <= 0xFF
    ensures Unescape(EscapeChar(c) + tail) ==
      match Unescape(tail) case None => None case Some(rest) => Some([c] + rest)
  {
    var s := EscapeChar(c) + tail;
    if IsAlphanumeric(c) {
      assert s[1..] == tail;
    } else {
      Hex02Byte(c as int);
      assert s[3..] == tail;
    }
  }

  /** What is read back begins with a character up to U+00FF. */
  lemma WideHeadIsLost(name: string)
    requires name != [] && name[0] as int > 0xFF
    ensures Unescape(Escaped(name)) != Some(name)
  {
    var s := Escaped(name);
    assert s[0] == '_';
    var r := Unescape(s);
    if r.Some? {
      assert r.value[0] == (16 * HexValue(s[1]) + HexValue(s[2])) as char;
    }
  }

  lemma NarrowHeadIsKept(name: string)
    requires name != [] && name[0] as int <= 0xFF
    ensures Unescape(Escaped(name)) == Some(name) <==> Unescape(Escaped(name[1..])) == Some(name[1..])
  {
    UnescapeHead(name[0], Escaped(name[1..]));
    assert name == [name[0]] + name[1..];
    var rest := Unescape(Escaped(name[1..]));
    if rest.Some? {
      assert ([name[0]] + rest.value)[1..] == rest.value;
    }
  }

  /** Unescaping an escaped name gives the name back exactly when none of its
      characters lies above U+00FF. */
  lemma {:induction false} RoundTripIff(name: string)
    ensures Unescape(Escaped(name)) == Some(name) <==> IsLatin1(name)
  {
    if name != [] {
      assert IsLatin1(name) <==> name[0] as int <= 0xFF && IsLatin1(name[1..]);
      if name[0] as int <= 0xFF {
        NarrowHeadIsKept(name);
        RoundTripIff(name[1..]);
      } else {
        WideHeadIsLost(name);
      }
    }
  }

  /** Exactly the names of ASCII letters and digits are left as they are. */
  lemma {:induction false} EscapedUnchangedIff(name: string)
    ensures Escaped(name) == name <==>
      forall i :: 0 <= i < |name| ==>
        'a' <= name[i] <= 'z' || 'A' <= name[i] <= 'Z' || '0' <= name[i] <= '9'
  {
    if name != [] {
      EscapedUnchangedIff(name[1..]);
      assert name == [name[0]] + name[1..];
      if IsAlphanumeric(name[0]) {
        assert Escaped(name)[1..] == Escaped(name[1..]);
      } else {
        assert Escaped(name)[0] == '_';
        EscapedIsNoShorter(name);
      }
    }
  }

  lemma {:induction false} EscapedIsNoShorter(name: string)
    ensures |Escaped(name)| >= |name|
    ensures name != [] && !IsAlphanumeric(name[0]) ==> |Escaped(name)| > |name|
  {
    if name != [] {
      EscapedIsNoShorter(name[1..]);
    }
  }

  const HEX_DIGITS := "0123456789abcdef"

  lemma EscapedOne(c: char)
    requires c as int <= 0xFF
    ensures Escaped([c]) ==
      if 'a' <= c <= 'z' || 'A' <= c <= 'Z' || '0' <= c <= '9' then [c]
      else ['_', HEX_DIGITS[c as int / 16], HEX_DIGITS[c as int % 16]]
  {
    assert [c][1..] == [];
    assert Escaped([c]) == EscapeChar(c);
    Hex02Byte(c as int);
    HexDigitIs(c as int / 16);
    HexDigitIs(c as int % 16);
  }

  /** Wherever it stands, a letter or digit stays and any other character up to U+00FF
      becomes an underscore and the two hexadecimal digits of its value. */
  lemma EscapedInPlace(before: string, c: char, after: string)
    requires c as int <= 0xFF
    ensures Escaped(before + [c] + after) == Escaped(before)
      + (if 'a' <= c <= 'z' || 'A' <= c <= 'Z' || '0' <= c <= '9' then [c]
         else ['_', HEX_DIGITS[c as int / 16], HEX_DIGITS[c as int % 16]])
      + Escaped(after)
  {
    EscapedConcat(before + [c], after);
    EscapedConcat(before, [c]);
    EscapedOne(c);
  }

  lemma HexDigitIs(n: nat)
    requires n < 16
    ensures HexDigit(n) == HEX_DIGITS[n]
  {
    assert n < 10 ==> HEX_DIGITS[n] == '0' + n as char;
    assert n >= 10 ==> HEX_DIGITS[n] == 'a' + (n - 10) as char;
  }

  lemma EscapedInjective(a: string, b: string)
    requires IsLatin1(a) && IsLatin1(b) && Escaped(a) == Escaped(b)
    ensures a == b
  {
    RoundTripIff(a);
    RoundTripIff(b);
  }

  /** The bound is real: U+0100 and U+0010 followed by a zero share an escape. */
  lemma EscapeCollides()
    ensures Escaped("\U{0100}") == Escaped("\U{0010}0") == "_100"
  {
    assert Hex(0x100) == Hex(0x10) + "0" == "100";
    assert "\U{0010}0"[1..] == "0" && "0"[1..] == "" && "\U{0100}"[1..] == "";
    assert Escaped("0") == "0";
  }
}
