/** Strings as both runtimes see them. A Dafny `string` is a sequence of
    Unicode scalar values; Java's `String.length()` and JavaScript's
    `charCodeAt` both work on UTF-16 code units instead, so a character
    outside the Basic Multilingual Plane counts twice. */
module Text {

  /** One UTF-16 code unit, the element type of a Java or JavaScript string. */
  type CodeUnit = x: int | 0 <= x < 0x1_0000

  /** The UTF-16 encoding of one character: one unit inside the Basic
      Multilingual Plane, a surrogate pair outside it. */
  function EncodeChar(c: char): (units: seq<CodeUnit>)
    ensures |units| == (if c as int < 0x1_0000 then 1 else 2)
    ensures c as int < 0x1_0000 ==> units[0] == c as int
    ensures c as int >= 0x1_0000 ==>
      && 0xD800 <= units[0] < 0xDC00
      && 0xDC00 <= units[1] < 0xE000
      && (units[0] as int - 0xD800) * 0x400 + (units[1] as int - 0xDC00) + 0x1_0000 == c as int
  {
    if c as int < 0x1_0000 then [c as int]
    else
      var v := c as int - 0x1_0000;
      [0xD800 + v / 0x400, 0xDC00 + v % 0x400]
  }

  /** The UTF-16 encoding of a string, as Java and JavaScript store it. */
  function Utf16(s: string): seq<CodeUnit>
  {
    if s == [] then [] else Utf16(s[..|s| - 1]) + EncodeChar(s[|s| - 1])
  }

  /** Java's `String.length()`: the number of UTF-16 code units. */
  function JavaLength(s: string): nat
  {
    |Utf16(s)|
  }

  /** Every character of `s` needs a single code unit. */
  ghost predicate InBasicPlane(s: string)
  {
    forall i :: 0 <= i < |s| ==> s[i] as int < 0x1_0000
  }

  /** A string never has more characters than code units, and exactly as
      many when all of its characters are in the Basic Multilingual Plane
      (so for such strings `String.length()` is the character count). */
  lemma {:induction false} JavaLengthBounds(s: string)
    ensures |s| <= JavaLength(s) <= 2 * |s|
    ensures InBasicPlane(s) ==> JavaLength(s) == |s|
  {
    if s != [] {
      var p := s[..|s| - 1];
      JavaLengthBounds(p);
      assert InBasicPlane(s) ==> InBasicPlane(p) by {
        if InBasicPlane(s) {
          forall i | 0 <= i < |p| ensures p[i] as int < 0x1_0000 {
            assert p[i] == s[i];
          }
        }
      }
    }
  }

  /** Inside the Basic Multilingual Plane the encoding is the identity on
      character codes. */
  lemma {:induction false} Utf16OfBasicPlane(s: string, i: nat)
    requires InBasicPlane(s) && i < |s|
    ensures |Utf16(s)| == |s| && Utf16(s)[i] == s[i] as int
  {
    var p := s[..|s| - 1];
    assert InBasicPlane(p) by {
      forall j | 0 <= j < |p| ensures p[j] as int < 0x1_0000 {
        assert p[j] == s[j];
      }
    }
    JavaLengthBounds(p);
    if i < |s| - 1 {
      Utf16OfBasicPlane(p, i);
      assert p[i] == s[i];
    }
  }
}
