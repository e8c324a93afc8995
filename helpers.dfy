/** Text helpers shared by the components. A JavaScript string is a sequence
    of UTF-16 code units, and `length` and `substring` count code units, so
    the text here is a sequence of code units rather than of characters. */
module Helpers {

  /** One UTF-16 code unit. */
  newtype CodeUnit = x: int | 0 <= x < 0x1_0000

  /** A JavaScript string: its UTF-16 code units. */
  type Text = seq<CodeUnit>

  /** The UTF-16 encoding of one character: a single unit inside the Basic
      Multilingual Plane, a high and a low surrogate outside it. */
  function EncodeChar(c: char): (units: Text)
    ensures 1 <= |units| <= 2
    ensures |units| == 1 <==> (c as int) < 0x1_0000
    ensures |units| == 1 ==> units[0] as int == c as int
    ensures |units| == 2 ==> 0xD800 <= units[0] as int < 0xDC00 <= units[1] as int < 0xE000
  {
    var v := c as int;
    if v < 0x1_0000 then [v as CodeUnit]
    else
      var w := v - 0x1_0000;
      [(0xD800 + w / 0x400) as CodeUnit, (0xDC00 + w % 0x400) as CodeUnit]
  }

  /** The code units JavaScript holds for a string of characters. */
  function Encode(s: string): Text
  {
    if s == [] then [] else EncodeChar(s[0]) + Encode(s[1..])
  }

  /** A text of characters inside the Basic Multilingual Plane has one code
      unit per character, and each unit is that character. */
  lemma {:induction false} EncodeBasicPlane(s: string)
    requires forall i :: 0 <= i < |s| ==> (s[i] as int) < 0x1_0000
    ensures |Encode(s)| == |s|
    ensures forall i :: 0 <= i < |s| ==> Encode(s)[i] as int == s[i] as int
  {
    if s != [] {
      EncodeBasicPlane(s[1..]);
      assert Encode(s) == EncodeChar(s[0]) + Encode(s[1..]);
      forall i | 0 <= i < |s|
        ensures Encode(s)[i] as int == s[i] as int
      {
        if i > 0 {
          assert Encode(s)[i] == Encode(s[1..])[i - 1];
          assert s[1..][i - 1] == s[i];
        }
      }
    }
  }

  /** The length `truncateText` keeps when no length is given. */
  const DefaultMaxLength := 100
  /** The code unit of ".". */
  const Dot: CodeUnit := 0x2E
  /** What `truncateText` appends to a shortened text: "...". */
  const Ellipsis: Text := [Dot, Dot, Dot]

  /** How many code units `text.substring(0, maxLength)` keeps of a text
      longer than `maxLength`: a negative end counts as 0. */
  function KeptLength(maxLength: int): nat
  {
    if maxLength < 0 then 0 else maxLength
  }

  /** `truncateText(text, maxLength = 100)`: an empty text, or one no longer
      than `maxLength` code units, comes back unchanged; a longer one is cut
      to its first `maxLength` code units followed by "...". */
  function TruncateText(text: Text, maxLength: int := DefaultMaxLength): (r: Text)
    ensures text == [] || |text| <= maxLength ==> r == text
    ensures text != [] && |text| > maxLength ==>
              |r| == KeptLength(maxLength) + |Ellipsis| &&
              r[..KeptLength(maxLength)] == text[..KeptLength(maxLength)] &&
              r[KeptLength(maxLength)..] == Ellipsis
  {
    if text == [] || |text| <= maxLength then text
    else text[..KeptLength(maxLength)] + Ellipsis
  }

  /** Truncating an already truncated text with the same length changes nothing. */
  lemma TruncateIdempotent(text: Text, maxLength: int)
    ensures TruncateText(TruncateText(text, maxLength), maxLength) == TruncateText(text, maxLength)
  {
    var r := TruncateText(text, maxLength);
    if text != [] && |text| > maxLength {
      var k := KeptLength(maxLength);
      assert r != [] && |r| > maxLength;
      assert r[..k] + Ellipsis == r;
    }
  }

  /** Truncation changes a text exactly when the text is non-empty, longer than
      `maxLength`, and does not already end in "..." right after the kept part. */
  lemma TruncateChangesText(text: Text, maxLength: int)
    ensures TruncateText(text, maxLength) != text <==> text != [] && |text| > maxLength && text[KeptLength(maxLength)..] != Ellipsis
  {
    var k := KeptLength(maxLength);
    var r := TruncateText(text, maxLength);
    if text != [] && |text| > maxLength {
      if text[k..] == Ellipsis {
        assert text == text[..k] + text[k..];
      } else {
        assert r[k..] != text[k..];
      }
    }
  }

  /** With the default length, texts of up to 100 code units are kept whole and
      longer ones become 103 code units long. */
  lemma TruncateDefault(text: Text)
    ensures |text| <= 100 ==> TruncateText(text) == text
    ensures |text| > 100 ==> |TruncateText(text)| == 103 && TruncateText(text)[..100] == text[..100]
  {
  }

  /** "😀😀" is four code units, so a cut after three keeps the first emoji
      and only the high surrogate of the second. */
  lemma TruncateSplitsSurrogatePair()
    ensures Encode("😀😀") == [0xD83D, 0xDE00, 0xD83D, 0xDE00]
    ensures TruncateText(Encode("😀😀"), 3) == Encode("😀") + [0xD83D] + Ellipsis
  {
    assert Encode("😀") == [0xD83D, 0xDE00];
    assert "😀😀"[1..] == "😀";
  }
}
