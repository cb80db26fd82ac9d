/** The few `java.lang` string operations the backend relies on:
    `String.trim` (behind the `@NotBlank` constraint), `String.startsWith`,
    `Long.toString` and `Long.parseLong`. */
module JavaLang {
  import opened Common

  const LONG_MIN: int := -0x8000_0000_0000_0000
  const LONG_MAX: int := 0x7FFF_FFFF_FFFF_FFFF

  /** `s.startsWith(prefix)`. */
  predicate StartsWith(s: string, prefix: string)
  {
    |prefix| <= |s| && s[..|prefix|] == prefix
  }

  // ---------------------------------------------------------------- trim

  /** `String.trim` removes every leading and trailing character whose
      code is at most U+0020 (spaces and control characters). */
  predicate IsTrimmable(c: char)
  {
    c <= ' '
  }

  function TrimStart(s: string): string
  {
    if s != [] && IsTrimmable(s[0]) then TrimStart(s[1..]) else s
  }

  function TrimEnd(s: string): string
  {
    if s != [] && IsTrimmable(s[|s| - 1]) then TrimEnd(s[..|s| - 1]) else s
  }

  function Trim(s: string): string
  {
    TrimEnd(TrimStart(s))
  }

  /** The `@NotBlank` constraint (Hibernate Validator): not `null`, and not
      empty once trimmed. */
  predicate NotBlank(s: Option<string>)
  {
    s.Some? && Trim(s.value) != []
  }

  /** Every character of `s` is one that `trim` removes. */
  ghost predicate AllTrimmable(s: string)
  {
    forall i :: 0 <= i < |s| ==> IsTrimmable(s[i])
  }

  lemma {:induction false} TrimStartEmpty(s: string)
    ensures TrimStart(s) == [] <==> AllTrimmable(s)
    ensures TrimStart(s) != [] ==> !IsTrimmable(TrimStart(s)[0])
  {
    if s != [] && IsTrimmable(s[0]) {
      TrimStartEmpty(s[1..]);
      assert AllTrimmable(s[1..]) ==> AllTrimmable(s) by {
        if AllTrimmable(s[1..]) {
          forall i | 0 <= i < |s| ensures IsTrimmable(s[i]) {
            if i > 0 { assert s[i] == s[1..][i - 1]; }
          }
        }
      }
    }
  }

  lemma {:induction false} TrimEndEmpty(s: string)
    ensures TrimEnd(s) == [] <==> AllTrimmable(s)
  {
    if s != [] && IsTrimmable(s[|s| - 1]) {
      var p := s[..|s| - 1];
      TrimEndEmpty(p);
      assert AllTrimmable(p) ==> AllTrimmable(s) by {
        if AllTrimmable(p) {
          forall i | 0 <= i < |s| ensures IsTrimmable(s[i]) {
            if i < |s| - 1 { assert s[i] == p[i]; }
          }
        }
      }
    }
  }

  /** A string is blank for `@NotBlank` exactly when it has no character
      above U+0020: the constraint asks for one visible character. */
  lemma NotBlankIff(s: Option<string>)
    ensures NotBlank(s) <==> s.Some? && exists i :: 0 <= i < |s.value| && !IsTrimmable(s.value[i])
  {
    if s.Some? {
      var t := TrimStart(s.value);
      TrimStartEmpty(s.value);
      TrimEndEmpty(t);
      if t != [] {
        assert !IsTrimmable(t[0]);
      }
    }
  }

  // ------------------------------------------------- Long.toString / parse

  predicate IsDigit(c: char)
  {
    '0' <= c <= '9'
  }

  predicate AllDigits(s: string)
  {
    forall i :: 0 <= i < |s| ==> IsDigit(s[i])
  }

  function DigitChar(d: nat): char
    requires d < 10
  {
    (('0' as int) + d) as char
  }

  /** The decimal digits of a natural number, most significant first and
      without leading zeros. */
  function Digits(n: nat): string
  {
    if n < 10 then [DigitChar(n)] else Digits(n / 10) + [DigitChar(n % 10)]
  }

  /** `Long.toString(n)` / `String.valueOf(n)`, and JavaScript's `String(n)`
      for an integer of magnitude at most `Number.MAX_SAFE_INTEGER`. */
  function Show(n: int): string
  {
    if n < 0 then "-" + Digits(-n) else Digits(n)
  }

  /** The number a string of decimal digits denotes. */
  function DigitsValue(s: string): nat
    requires AllDigits(s)
  {
    if s == [] then 0 else DigitsValue(s[..|s| - 1]) * 10 + (s[|s| - 1] as int - '0' as int)
  }

  /** `Long.parseLong(s)`: an optional `+` or `-` followed by at least one
      digit, whose value fits in a `long`; anything else throws
      `NumberFormatException` (here: `None`). */
  function ParseLong(s: string): (r: Option<int>)
    ensures r.Some? ==> LONG_MIN <= r.value <= LONG_MAX
    ensures s == [] || !(IsDigit(s[0]) || s[0] == '-' || s[0] == '+') ==> r.None?
    ensures s != [] && IsDigit(s[0]) ==>
      && (r.Some? <==> AllDigits(s) && DigitsValue(s) <= LONG_MAX)
      && (r.Some? ==> r.value == DigitsValue(s))
    ensures s != [] && s[0] == '+' ==>
      && (r.Some? <==> |s| > 1 && AllDigits(s[1..]) && DigitsValue(s[1..]) <= LONG_MAX)
      && (r.Some? ==> r.value == DigitsValue(s[1..]))
    ensures s != [] && s[0] == '-' ==>
      && (r.Some? <==> |s| > 1 && AllDigits(s[1..]) && DigitsValue(s[1..]) <= -LONG_MIN)
      && (r.Some? ==> r.value == -(DigitsValue(s[1..]) as int))
  {
    if s == [] then None
    else
      var body := if s[0] == '-' || s[0] == '+' then s[1..] else s;
      if body == [] || !AllDigits(body) then None
      else
        var v: int := if s[0] == '-' then -(DigitsValue(body) as int) else DigitsValue(body);
        if LONG_MIN <= v <= LONG_MAX then Some(v) else None
  }

  lemma {:induction false} DigitsRoundTrip(n: nat)
    ensures Digits(n) != [] && AllDigits(Digits(n)) && IsDigit(Digits(n)[0])
    ensures DigitsValue(Digits(n)) == n
  {
    if n >= 10 {
      DigitsRoundTrip(n / 10);
      var d := Digits(n);
      assert d[..|d| - 1] == Digits(n / 10);
      assert AllDigits(d) by {
        forall i | 0 <= i < |d| ensures IsDigit(d[i]) {
          if i < |d| - 1 { assert d[i] == Digits(n / 10)[i]; }
        }
      }
    }
  }

  /** Every `long` printed by `Long.toString` parses back to itself: an id
      the backend hands out as a string is read back as the same id. */
  lemma ParseShow(n: int)
    requires LONG_MIN <= n <= LONG_MAX
    ensures ParseLong(Show(n)) == Some(n)
  {
    if n < 0 {
      ParseShowNegative(n);
    } else {
      ParseShowNatural(n);
    }
  }

  lemma ParseShowNatural(n: nat)
    requires n <= LONG_MAX
    ensures ParseLong(Show(n)) == Some(n)
  {
    DigitsRoundTrip(n);
    var s := Show(n);
    assert s == Digits(n) && s[0] != '-' && s[0] != '+';
  }

  lemma ParseShowNegative(n: int)
    requires LONG_MIN <= n < 0
    ensures ParseLong(Show(n)) == Some(n)
  {
    DigitsRoundTrip(-n);
    var s := Show(n);
    assert s[0] == '-' && s[1..] == Digits(-n);
    assert -(DigitsValue(s[1..]) as int) == n;
  }
}
