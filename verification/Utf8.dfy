/** Strict UTF-8 decoding: no overlong forms, no surrogates, nothing above U+10FFFF. */
module Utf8 {
  import opened Wrappers

  type byte = x: int | 0 <= x < 256

  /** How many bytes a character takes. */
  function Width(c: char): nat {
    if c as int < 0x80 then 1 else if c as int < 0x800 then 2 else if c as int < 0x1_0000 then 3 else 4
  }

  function Length(s: string): nat {
    if s == "" then 0 else Width(s[0]) + Length(s[1..])
  }

  predicate Continues(b: byte) { 0x80 <= b < 0xC0 }

  /** The first character of a byte string, if it starts with a well-formed one. */
  function Head(s: seq<byte>): (r: Option<char>)
    ensures r.Some? ==> Width(r.value) <= |s|
  {
    if s == [] then None
    else if s[0] < 0x80 then Some(s[0] as char)
    else if 0xC2 <= s[0] < 0xE0 && |s| >= 2 && Continues(s[1]) then
      var code := (s[0] as int - 0xC0) * 0x40 + (s[1] as int - 0x80);
      Some(code as char)
    else if 0xE0 <= s[0] < 0xF0 && |s| >= 3 && Continues(s[1]) && Continues(s[2]) then
      var code := (s[0] as int - 0xE0) * 0x1000 + (s[1] as int - 0x80) * 0x40 + (s[2] as int - 0x80);
      if code < 0x800 || 0xD800 <= code < 0xE000 then None else Some(code as char)
    else if 0xF0 <= s[0] < 0xF5 && |s| >= 4 && Continues(s[1]) && Continues(s[2]) && Continues(s[3]) then
      var code := (s[0] as int - 0xF0) * 0x4_0000 + (s[1] as int - 0x80) * 0x1000 + (s[2] as int - 0x80) * 0x40 + (s[3] as int - 0x80);
      if code < 0x1_0000 || 0x11_0000 <= code then None else Some(code as char)
    else None
  }

  function Decode(s: seq<byte>): (r: Option<string>)
    ensures r.Some? ==> Length(r.value) == |s|
  {
    if s == [] then Some("")
    else if Head(s).None? then None
    else
      var rest := Decode(s[Width(Head(s).value)..]);
      if rest.None? then None else Some([Head(s).value] + rest.value)
  }

  lemma {:induction false} LengthConcat(a: string, b: string)
    ensures Length(a + b) == Length(a) + Length(b)
  {
    if a == "" {
      assert a + b == b;
    } else {
      LengthConcat(a[1..], b);
      assert (a + b)[1..] == a[1..] + b;
    }
  }

  lemma LengthOfDrop(s: string, n: nat)
    requires n <= |s|
    ensures Length(s[n..]) + n <= Length(s)
  {
    if n > 0 {
      LengthOfDrop(s[1..], n - 1);
      assert s[1..][n - 1..] == s[n..];
    }
  }

  // ----- encoding -----

  function Utf8Bytes(c: char): (r: seq<byte>)
    ensures |r| == Width(c)
  {
    var n := c as int;
    if n < 0x80 then [n]
    else if n < 0x800 then [0xC0 + n / 0x40, 0x80 + n % 0x40]
    else if n < 0x1_0000 then [0xE0 + n / 0x1000, 0x80 + n / 0x40 % 0x40, 0x80 + n % 0x40]
    else [0xF0 + n / 0x4_0000, 0x80 + n / 0x1000 % 0x40, 0x80 + n / 0x40 % 0x40, 0x80 + n % 0x40]
  }

  lemma HeadOfTwo(c: char, s: seq<byte>)
    requires Width(c) == 2 && Utf8Bytes(c) <= s
    ensures Head(s) == Some(c)
  {
    assert s[0] == Utf8Bytes(c)[0] && s[1] == Utf8Bytes(c)[1];
  }

  lemma HeadOfThree(c: char, s: seq<byte>)
    requires Width(c) == 3 && Utf8Bytes(c) <= s
    ensures Head(s) == Some(c)
  {
    var n := c as int;
    assert s[0] == 0xE0 + n / 0x1000 && s[1] == 0x80 + n / 0x40 % 0x40 && s[2] == 0x80 + n % 0x40;
    assert n == n / 0x1000 * 0x1000 + n / 0x40 % 0x40 * 0x40 + n % 0x40;
  }

  lemma FourDigits(n: nat)
    requires n < 0x11_0000
    ensures n / 0x4_0000 * 0x4_0000 + n / 0x1000 % 0x40 * 0x1000 + n / 0x40 % 0x40 * 0x40 + n % 0x40 == n
    ensures n / 0x4_0000 < 5
  {
    assert n / 0x40 / 0x40 == n / 0x1000 && n / 0x1000 / 0x40 == n / 0x4_0000;
  }

  lemma HeadOfFour(c: char, s: seq<byte>)
    requires Width(c) == 4 && Utf8Bytes(c) <= s
    ensures Head(s) == Some(c)
  {
    hide Utf8Bytes;
    var n := c as int;
    var w, x, y, z := n / 0x4_0000, n / 0x1000 % 0x40, n / 0x40 % 0x40, n % 0x40;
    assert s[0] == 0xF0 + w && s[1] == 0x80 + x && s[2] == 0x80 + y && s[3] == 0x80 + z by {
      FourBytes(c, s);
    }
    FourDigits(n);
    assert 0x1_0000 <= w * 0x4_0000 + x * 0x1000 + y * 0x40 + z < 0x11_0000;
  }

  lemma FourBytes(c: char, s: seq<byte>)
    requires Width(c) == 4 && Utf8Bytes(c) <= s
    ensures |s| >= 4 && s[0] == 0xF0 + c as int / 0x4_0000 && s[1] == 0x80 + c as int / 0x1000 % 0x40
    ensures s[2] == 0x80 + c as int / 0x40 % 0x40 && s[3] == 0x80 + c as int % 0x40
  {
    assert forall k | 0 <= k < 4 :: s[k] == Utf8Bytes(c)[k];
  }

  lemma HeadOfBytes(c: char, rest: seq<byte>)
    ensures Head(Utf8Bytes(c) + rest) == Some(c)
  {
    var s := Utf8Bytes(c) + rest;
    if Width(c) == 1 {
      assert s[0] == c as int;
    } else {
      hide Head, Utf8Bytes;
      if Width(c) == 2 {
        HeadOfTwo(c, s);
      } else if Width(c) == 3 {
        HeadOfThree(c, s);
      } else {
        HeadOfFour(c, s);
      }
    }
  }

  function EncodeText(text: string): seq<byte> {
    if text == "" then [] else Utf8Bytes(text[0]) + EncodeText(text[1..])
  }

  lemma EncodeStep(text: string)
    requires text != ""
    ensures EncodeText(text) == Utf8Bytes(text[0]) + EncodeText(text[1..])
  {
  }

  lemma {:induction false} EncodedConcat(a: string, b: string)
    ensures EncodeText(a + b) == EncodeText(a) + EncodeText(b)
  {
    if a == "" {
      assert a + b == b;
    } else {
      hide EncodeText, Utf8Bytes;
      EncodeStep(a);
      EncodeStep(a + b);
      EncodedConcat(a[1..], b);
      FrontOf(a, b);
      Regroup(Utf8Bytes(a[0]), EncodeText(a[1..]), EncodeText(b));
    }
  }

  lemma FrontOf(a: string, b: string)
    requires a != ""
    ensures (a + b)[0] == a[0] && (a + b)[1..] == a[1..] + b
  {
  }

  lemma Regroup(x: seq<byte>, y: seq<byte>, z: seq<byte>)
    ensures (x + y) + z == x + (y + z)
  {
  }

  lemma {:induction false} EncodedLength(text: string)
    ensures |EncodeText(text)| == Length(text)
  {
    if text != "" {
      hide Utf8Bytes;
      EncodedLength(text[1..]);
    }
  }

  /** Strict decoding gives every encoded text back. */
  lemma {:induction false} DecodesWhatIsEncoded(text: string)
    ensures Decode(EncodeText(text)) == Some(text)
  {
    if text != "" {
      hide Head, Utf8Bytes;
      var rest := EncodeText(text[1..]);
      HeadOfBytes(text[0], rest);
      DecodesWhatIsEncoded(text[1..]);
      assert (Utf8Bytes(text[0]) + rest)[Width(text[0])..] == rest;
      assert text == [text[0]] + text[1..];
    }
  }

  lemma Digits(n: nat, w: nat, x: nat, y: nat, z: nat)
    requires x < 0x40 && y < 0x40 && z < 0x40 && n == w * 0x4_0000 + x * 0x1000 + y * 0x40 + z
    ensures n / 0x4_0000 == w && n / 0x1000 % 0x40 == x && n / 0x40 % 0x40 == y && n % 0x40 == z
    ensures w == 0 ==> n / 0x1000 == x
  {
    assert n / 0x40 == w * 0x1000 + x * 0x40 + y;
    assert n / 0x1000 == w * 0x40 + x;
  }

  lemma ThreeEncoded(s: seq<byte>)
    requires Head(s).Some? && 0xE0 <= s[0] < 0xF0
    ensures Utf8Bytes(Head(s).value) == s[..3] && Width(Head(s).value) == 3
  {
    var c := Head(s).value;
    assert c as int == (s[0] as int - 0xE0) * 0x1000 + (s[1] as int - 0x80) * 0x40 + (s[2] as int - 0x80);
    Digits(c as int, 0, s[0] as int - 0xE0, s[1] as int - 0x80, s[2] as int - 0x80);
  }

  lemma FourEncoded(s: seq<byte>)
    requires Head(s).Some? && 0xF0 <= s[0]
    ensures Utf8Bytes(Head(s).value) == s[..4] && Width(Head(s).value) == 4
  {
    var c := Head(s).value;
    assert c as int == (s[0] as int - 0xF0) * 0x4_0000 + (s[1] as int - 0x80) * 0x1000 + (s[2] as int - 0x80) * 0x40 + (s[3] as int - 0x80);
    Digits(c as int, s[0] as int - 0xF0, s[1] as int - 0x80, s[2] as int - 0x80, s[3] as int - 0x80);
  }

  lemma TwoEncoded(s: seq<byte>)
    requires Head(s).Some? && s[0] < 0xE0
    ensures Utf8Bytes(Head(s).value) == s[..Width(Head(s).value)]
  {
    var c := Head(s).value;
    if s[0] >= 0x80 {
      assert c as int == (s[0] as int - 0xC0) * 0x40 + (s[1] as int - 0x80);
      Digits(c as int, 0, 0, s[0] as int - 0xC0, s[1] as int - 0x80);
    }
  }

  lemma HeadIsEncoded(s: seq<byte>)
    requires Head(s).Some?
    ensures Utf8Bytes(Head(s).value) <= s
  {
    hide Utf8Bytes, Head;
    assert s != [] by {
      assert Width(Head(s).value) <= |s|;
    }
    if s[0] < 0xE0 {
      TwoEncoded(s);
    } else if s[0] < 0xF0 {
      ThreeEncoded(s);
    } else {
      FourEncoded(s);
    }
  }

  lemma DecodeStep(s: seq<byte>)
    requires s != [] && Decode(s).Some?
    ensures Head(s).Some? && Decode(s[Width(Head(s).value)..]).Some?
    ensures Decode(s).value == [Head(s).value] + Decode(s[Width(Head(s).value)..]).value
  {
    hide Head;
  }

  lemma SplitAt(s: seq<byte>, front: seq<byte>)
    requires front <= s
    ensures s == front + s[|front|..]
  {
  }

  /** Only encoded texts are decoded: nothing else is well-formed. */
  lemma {:induction false} DecodedIsEncoded(s: seq<byte>)
    requires Decode(s).Some?
    ensures EncodeText(Decode(s).value) == s
  {
    if s != [] {
      hide Head, Utf8Bytes, EncodeText, Decode;
      DecodeStep(s);
      var c := Head(s).value;
      var text := Decode(s[Width(c)..]).value;
      HeadIsEncoded(s);
      DecodedIsEncoded(s[Width(c)..]);
      EncodeStep([c] + text);
      FrontOf([c], text);
      assert [c][1..] + text == text;
      SplitAt(s, Utf8Bytes(c));
    }
  }
}
