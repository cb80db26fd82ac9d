/** `getIndexFromId` of the web client's boss component: the id of a boss
    is hashed to pick one of a fixed list of boss designs. JavaScript
    numbers are modelled by the integers they hold here; the bitwise
    operators' conversion to a signed 32-bit integer (ECMAScript's ToInt32)
    is written out. */
module BossIndex {
  import opened Common
  import opened Text
  import JavaLang

  const TWO_31: int := 0x8000_0000
  const TWO_32: int := 0x1_0000_0000

  /** A signed 32-bit integer, the result of every bitwise operator. */
  type Int32 = x: int | -0x8000_0000 <= x < 0x8000_0000

  /** ToInt32 on an integer-valued number: wrap-around modulo 2^32 into
      the signed range. */
  function ToInt32(x: int): (r: Int32)
    ensures (r - x) % TWO_32 == 0
  {
    (x + TWO_31) % TWO_32 - TWO_31
  }

  /** `Number.MAX_SAFE_INTEGER`, 2^53 - 1. */
  const MAX_SAFE_INTEGER: int := 0x1F_FFFF_FFFF_FFFF

  /** The integers a double holds exactly and `String` writes as their
      exact decimal: from 2^53 up, consecutive integers share a double and
      `String` writes the shortest digits that round-trip to it. */
  type SafeInteger = n: int | -MAX_SAFE_INTEGER <= n <= MAX_SAFE_INTEGER

  /** The values `getIndexFromId` is called with: a boss's id (a number
      from the back end, a string in older data) or nothing. */
  datatype JsId = Null | Undefined | Str(s: string) | Num(n: SafeInteger) | Bool(b: bool)

  /** A number result; `x % 0` is `NaN`. */
  datatype JsNumber = Int(n: int) | NaN

  /** `String(id)` for an id that is neither `null` nor `undefined`. A safe
      integer is written as its exact decimal. */
  function JsString(id: JsId): string
    requires !id.Null? && !id.Undefined?
  {
    match id
    case Str(s) => s
    case Num(n) => JavaLang.Show(n)
    case Bool(b) => if b then "true" else "false"
  }

  /** One turn of the loop as written: `hash = (hash << 5) - hash + char`
      followed by `hash |= 0`. The shift already wraps `hash * 32`. */
  function HashStep(hash: Int32, unit: CodeUnit): Int32
  {
    ToInt32(ToInt32(hash * 32) - hash + unit)
  }

  /** The loop's value after the given code units. */
  function StringHash(units: seq<CodeUnit>): Int32
  {
    if units == [] then 0 else HashStep(StringHash(units[..|units| - 1]), units[|units| - 1])
  }

  /** The same polynomial without wrap-around: `sum units[i] * 31^(n-1-i)`,
      the formula of Java's `String.hashCode`. */
  function PolyHash(units: seq<CodeUnit>): int
  {
    if units == [] then 0 else 31 * PolyHash(units[..|units| - 1]) + units[|units| - 1]
  }

  /** `getIndexFromId(id, arrayLength)`. `%` takes the sign of its
      dividend, which `Math.abs` has made non-negative, so a negative length
      acts as its absolute value. */
  function IndexFromId(id: JsId, arrayLength: int): JsNumber
  {
    if id.Null? || id.Undefined? then Int(0)
    else
      var units := Utf16(JsString(id));
      if |units| == 0 then Int(0)
      else if arrayLength == 0 then NaN
      else Int(Abs(StringHash(units)) % Abs(arrayLength))
  }

  // ---------------------------------------------------------------- lemmas

  /** Two integers congruent modulo 2^32 wrap to the same value. */
  lemma ToInt32Congruent(x: int, y: int)
    requires (x - y) % TWO_32 == 0
    ensures ToInt32(x) == ToInt32(y)
  {
    var k := (x - y) / TWO_32;
    assert x == y + k * TWO_32;
    assert (x + TWO_31) % TWO_32 == (y + TWO_31 + k * TWO_32) % TWO_32;
    ModAddMultiple(y + TWO_31, k);
  }

  lemma ModAddMultiple(a: int, k: int)
    ensures (a + k * TWO_32) % TWO_32 == a % TWO_32
  {
  }

  /** A multiple of 2^32 stays one when multiplied by 31. */
  lemma ScaleCongruence(d: int)
    requires d % TWO_32 == 0
    ensures (31 * d) % TWO_32 == 0
  {
    var k := d / TWO_32;
    assert d == k * TWO_32;
    assert 31 * d == (31 * k) * TWO_32;
    ModAddMultiple(0, 31 * k);
  }

  /** The shift-and-subtract step is multiplication by 31, wrapped: the
      intermediate wrap of `hash << 5` does not change the result. */
  lemma HashStepTimes31(hash: Int32, unit: CodeUnit)
    ensures HashStep(hash, unit) == ToInt32(31 * hash + unit)
  {
    var s := ToInt32(hash * 32);
    assert ((s - hash + unit) - (31 * hash + unit)) % TWO_32 == 0 by {
      assert (s - hash + unit) - (31 * hash + unit) == s - hash * 32;
    }
    ToInt32Congruent(s - hash + unit, 31 * hash + unit);
  }

  /** The loop computes Java's string hash, wrapped to 32 bits: wrapping at
      every step gives what wrapping once at the end would. */
  lemma {:induction false} StringHashIsPolyHash(units: seq<CodeUnit>)
    ensures StringHash(units) == ToInt32(PolyHash(units))
  {
    if units != [] {
      var p := units[..|units| - 1];
      var c := units[|units| - 1];
      StringHashIsPolyHash(p);
      var h := StringHash(p);
      HashStepTimes31(h, c);
      ScaleCongruence(h - PolyHash(p));
      assert (31 * h + c) - (31 * PolyHash(p) + c) == 31 * (h - PolyHash(p));
      ToInt32Congruent(31 * h + c, 31 * PolyHash(p) + c);
    }
  }

  /** The loop's value after one more code unit. */
  lemma StringHashStep(units: seq<CodeUnit>, i: nat)
    requires i < |units|
    ensures StringHash(units[..i + 1]) == HashStep(StringHash(units[..i]), units[i])
  {
    assert units[..i + 1][..i] == units[..i];
  }

  /** For a positive length the index is a valid position in the list;
      for a negative one, a position in a list of its absolute length; a
      zero length gives `NaN`, unless the id is absent or prints as the
      empty string, which give 0 before the length is used. */
  lemma IndexInRange(id: JsId, arrayLength: int)
    ensures var r := IndexFromId(id, arrayLength);
      && (arrayLength != 0 ==> r.Int? && 0 <= r.n < Abs(arrayLength))
      && (arrayLength == 0 ==> (r == Int(0) <==> id.Null? || id.Undefined? || JsString(id) == []))
      && (arrayLength == 0 ==> (r == NaN <==> !id.Null? && !id.Undefined? && JsString(id) != []))
  {
    if !id.Null? && !id.Undefined? {
      JavaLengthBounds(JsString(id));
    }
  }

  /** The id is hashed through `String(id)`: a number and its decimal
      string pick the same design, and so do `true` and `"true"`. */
  lemma {:induction false} SameStringSameIndex(a: JsId, b: JsId, arrayLength: int)
    requires !a.Null? && !a.Undefined? && !b.Null? && !b.Undefined?
    requires JsString(a) == JsString(b)
    ensures IndexFromId(a, arrayLength) == IndexFromId(b, arrayLength)
  {
  }

  /** A number's string reads back as the same number: for a safe
      integer, `String` loses nothing, so distinct numeric ids are hashed
      through distinct strings. */
  lemma NumStringRoundTrip(n: SafeInteger)
    ensures JavaLang.ParseLong(JsString(Num(n))) == Some(n)
  {
    JavaLang.ParseShow(n);
  }

  /** `String(10)` is `"10"`, whose code units are 49 and 48. */
  lemma TenAsString()
    ensures JsString(Num(10)) == "10"
    ensures Utf16("10") == [49, 48]
  {
    assert JavaLang.Digits(1) == "1";
    assert "1"[..0] == [];
    assert "10"[..1] == "1";
  }

  /** `"10"` hashes to 49 * 31 + 48 = 1567. */
  lemma TenHash()
    ensures StringHash([49, 48]) == 1567
  {
    assert StringHash([49]) == 49 by {
      assert [49][..0] == [];
      HashStepTimes31(0, 49);
    }
    assert [49, 48][..1] == [49];
    HashStepTimes31(49, 48);
  }

  /** `getIndexFromId(10, n)` and `getIndexFromId("10", n)` agree, and for
      five designs both give 1567 % 5 = 2. */
  lemma {:induction false} NumberTenExample(arrayLength: int)
    ensures IndexFromId(Num(10), arrayLength) == IndexFromId(Str("10"), arrayLength)
    ensures IndexFromId(Num(10), 5) == Int(2)
  {
    TenAsString();
    TenHash();
  }

  // --------------------------------------------------------------- methods

  /** The function as written, with its early returns and its loop over the
      UTF-16 code units of `String(id)`. */
  method GetIndexFromId(id: JsId, arrayLength: int) returns (r: JsNumber)
    ensures r == IndexFromId(id, arrayLength)
    ensures arrayLength > 0 ==> r.Int? && 0 <= r.n < arrayLength
  {
    if id.Null? || id.Undefined? {
      return Int(0);
    }
    var hash: Int32 := 0;
    var idStr := Utf16(JsString(id));
    if |idStr| == 0 {
      return Int(0);
    }
    for i := 0 to |idStr|
      invariant hash == StringHash(idStr[..i])
    {
      var unit := idStr[i];
      StringHashStep(idStr, i);
      var shifted := ToInt32(hash * 32);
      hash := ToInt32(shifted - hash + unit);
    }
    assert idStr[..|idStr|] == idStr;
    if arrayLength == 0 {
      return NaN;
    }
    r := Int(Abs(hash) % Abs(arrayLength));
    IndexInRange(id, arrayLength);
  }
}
