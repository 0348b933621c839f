/**
 * The Kotlin and Java string operations the clients rely on, over
 * `string` = `seq<char>`: blank tests, `trim`, case conversion,
 * substring search, `split("\n")`, `toIntOrNull`, digit filtering and the
 * card-number grouping `chunked(4).joinToString(" ")`.
 *
 * Case conversion is ASCII-only; see README "Left out".
 */
module Text {
  import opened Wrappers
  import opened Seqs

  /**
   * Kotlin `Char.isWhitespace`: Java's `isWhitespace` or `isSpaceChar`,
   * i.e. U+0009..U+000D, U+001C..U+001F and the Unicode space, line and
   * paragraph separators.
   */
  predicate IsWhitespace(c: char)
  {
    ('\t' <= c <= '\r') || ('\U{1C}' <= c <= '\U{1F}') || c == ' ' || c == '\U{A0}' ||
    c == '\U{1680}' || ('\U{2000}' <= c <= '\U{200A}') || c == '\U{2028}' || c == '\U{2029}' ||
    c == '\U{202F}' || c == '\U{205F}' || c == '\U{3000}'
  }

  /** Kotlin `isBlank`: empty or whitespace only. */
  predicate IsBlank(s: string)
  {
    forall i :: 0 <= i < |s| ==> IsWhitespace(s[i])
  }

  /** The characters Java's `String.trim` strips: code points up to U+0020. */
  predicate IsTrimmed(c: char)
  {
    c <= ' '
  }

  function TrimStart(s: string): (r: string)
    ensures |r| <= |s|
    ensures |r| > 0 ==> !IsTrimmed(r[0])
    ensures forall k :: 0 <= k < |s| - |r| ==> IsTrimmed(s[k])
    decreases |s|
  {
    if |s| == 0 || !IsTrimmed(s[0]) then s else TrimStart(s[1..])
  }

  function TrimEnd(s: string): (r: string)
    ensures |r| <= |s|
    ensures |r| > 0 ==> !IsTrimmed(r[|r| - 1])
    ensures |s| > 0 && !IsTrimmed(s[0]) ==> |r| > 0
    ensures forall k :: |r| <= k < |s| ==> IsTrimmed(s[k])
    decreases |s|
  {
    if |s| == 0 || !IsTrimmed(s[|s| - 1]) then s else TrimEnd(s[..|s| - 1])
  }

  /** What `TrimStart` leaves is a suffix of its input. */
  lemma {:induction false} TrimStartIsSuffix(s: string)
    ensures TrimStart(s) == s[|s| - |TrimStart(s)|..]
    decreases |s|
  {
    if |s| > 0 && IsTrimmed(s[0]) {
      TrimStartIsSuffix(s[1..]);
    }
  }

  /** What `TrimEnd` leaves is a prefix of its input. */
  lemma {:induction false} TrimEndIsPrefix(s: string)
    ensures TrimEnd(s) == s[..|TrimEnd(s)|]
    decreases |s|
  {
    if |s| > 0 && IsTrimmed(s[|s| - 1]) {
      TrimEndIsPrefix(s[..|s| - 1]);
    }
  }

  /** Java `String.trim`. */
  function Trim(s: string): (r: string)
    ensures |r| <= |s|
    ensures |r| > 0 ==> !IsTrimmed(r[0]) && !IsTrimmed(r[|r| - 1])
  {
    TrimStartIsSuffix(s);
    TrimEndIsPrefix(TrimStart(s));
    TrimEnd(TrimStart(s))
  }

  /** A trimmed string is empty exactly when every character is at most U+0020. */
  lemma TrimEmptyIff(s: string)
    ensures |Trim(s)| == 0 <==> forall k :: 0 <= k < |s| ==> IsTrimmed(s[k])
  {
    TrimStartIsSuffix(s);
  }

  /** Some character of `s` is above U+0020, so something is left after trimming. */
  predicate HasVisible(s: string)
  {
    exists i :: 0 <= i < |s| && !IsTrimmed(s[i])
  }

  lemma VisibleSurvivesTrim(s: string)
    ensures HasVisible(s) <==> Trim(s) != ""
  {
    TrimEmptyIff(s);
  }

  /** A string that starts and ends with characters above U+0020 is its own trim. */
  lemma TrimmedIsFixed(s: string)
    requires |s| > 0 && !IsTrimmed(s[0]) && !IsTrimmed(s[|s| - 1])
    ensures Trim(s) == s
  {
    assert TrimStart(s) == s;
    assert TrimEnd(s) == s;
  }

  /** Trimming twice is trimming once. */
  lemma TrimIdempotent(s: string)
    ensures Trim(Trim(s)) == Trim(s)
  {
    var t := Trim(s);
    if |t| > 0 {
      assert TrimStart(t) == t;
      assert TrimEnd(t) == t;
    }
  }

  function LowerChar(c: char): char
  {
    if 'A' <= c <= 'Z' then (c as int + 32) as char else c
  }

  function UpperChar(c: char): char
  {
    if 'a' <= c <= 'z' then (c as int - 32) as char else c
  }

  /** `lowercase()` / `toLowerCase()`, on the ASCII letters. */
  function Lower(s: string): (r: string)
    ensures |r| == |s|
    ensures forall i :: 0 <= i < |s| ==> r[i] == LowerChar(s[i])
  {
    Map(s, LowerChar)
  }

  /** `uppercase()`, on the ASCII letters. */
  function Upper(s: string): (r: string)
    ensures |r| == |s|
    ensures forall i :: 0 <= i < |s| ==> r[i] == UpperChar(s[i])
  {
    Map(s, UpperChar)
  }

  /** An uppercased string has no lowercase ASCII letter, and uppercasing it again changes nothing. */
  lemma UpperIdempotent(s: string)
    ensures forall i :: 0 <= i < |s| ==> !('a' <= Upper(s)[i] <= 'z')
    ensures Upper(Upper(s)) == Upper(s)
  {
  }

  predicate IsPrefix(t: string, s: string)
  {
    |t| <= |s| && s[..|t|] == t
  }

  predicate IsSuffix(t: string, s: string)
  {
    |t| <= |s| && s[|s| - |t|..] == t
  }

  /** Kotlin `contains`: `t` occurs in `s` as a contiguous block. */
  predicate Contains(s: string, t: string)
    decreases |s|
  {
    IsPrefix(t, s) || (|s| > 0 && Contains(s[1..], t))
  }

  /** `t` occurs in `s` at position `i`. */
  predicate OccursAt(s: string, t: string, i: int)
  {
    0 <= i && i + |t| <= |s| && s[i..i + |t|] == t
  }

  /** `Contains` means: there is a position where `t` occurs. */
  lemma {:induction false} ContainsIff(s: string, t: string)
    ensures Contains(s, t) <==> exists i :: OccursAt(s, t, i)
    decreases |s|
  {
    if |s| > 0 {
      ContainsIff(s[1..], t);
      if Contains(s[1..], t) {
        var i :| OccursAt(s[1..], t, i);
        assert s[i + 1..i + 1 + |t|] == s[1..][i..i + |t|];
        assert OccursAt(s, t, i + 1);
      }
      if i :| OccursAt(s, t, i) {
        if i > 0 {
          assert s[1..][i - 1..i - 1 + |t|] == s[i..i + |t|];
          assert OccursAt(s[1..], t, i - 1);
        } else {
          assert IsPrefix(t, s);
        }
      }
      if IsPrefix(t, s) {
        assert OccursAt(s, t, 0);
      }
    } else {
      if IsPrefix(t, s) {
        assert OccursAt(s, t, 0);
      }
      if i :| OccursAt(s, t, i) {
        assert i == 0 && |t| == 0;
        assert IsPrefix(t, s);
      }
    }
  }

  /** Kotlin `contains(t, ignoreCase = true)` and Java's lower-case-both-then-`contains`. */
  predicate ContainsIgnoreCase(s: string, t: string)
  {
    Contains(Lower(s), Lower(t))
  }

  predicate IsDigit(c: char)
  {
    '0' <= c <= '9'
  }

  predicate AllDigits(s: string)
  {
    forall i :: 0 <= i < |s| ==> IsDigit(s[i])
  }

  /** `filter { it.isDigit() }`. */
  function Digits(s: string): (r: string)
    ensures AllDigits(r)
    ensures |r| <= |s|
    ensures IsSubsequence(r, s)
  {
    Filter(s, IsDigit)
  }

  /** `replace(" ", "")`. */
  function RemoveSpaces(s: string): (r: string)
    ensures ' ' !in r
    ensures |r| <= |s|
  {
    Filter(s, c => c != ' ')
  }

  /** Kotlin `takeLast(n)`. */
  function TakeLast(s: string, n: nat): (r: string)
    ensures |r| == if |s| <= n then |s| else n
    ensures IsSuffix(r, s)
  {
    if |s| <= n then s else s[|s| - n..]
  }

  /**
   * Kotlin `split(sep)` on a single-character delimiter: one piece more
   * than there are delimiters, the empty string giving `[""]`.
   */
  function Split(s: string, sep: char): (r: seq<string>)
    ensures |r| >= 1
    ensures forall i :: 0 <= i < |r| ==> sep !in r[i]
    decreases |s|
  {
    if |s| == 0 then [""]
    else
      var rest := Split(s[1..], sep);
      if s[0] == sep then [""] + rest
      else [[s[0]] + rest[0]] + rest[1..]
  }

  /** `joinToString(sep)`. */
  function Join(parts: seq<string>, sep: char): string
    decreases |parts|
  {
    if |parts| == 0 then ""
    else if |parts| == 1 then parts[0]
    else parts[0] + [sep] + Join(parts[1..], sep)
  }

  /** Splitting and re-joining on the same delimiter gives back the input. */
  lemma {:induction false} JoinSplit(s: string, sep: char)
    ensures Join(Split(s, sep), sep) == s
    decreases |s|
  {
    if |s| > 0 {
      JoinSplit(s[1..], sep);
      var rest := Split(s[1..], sep);
      if s[0] == sep {
        assert Split(s, sep) == [""] + rest;
        assert ([""] + rest)[1..] == rest;
      } else {
        var r := Split(s, sep);
        assert r == [[s[0]] + rest[0]] + rest[1..];
        if |rest| == 1 {
          assert Join(r, sep) == [s[0]] + rest[0];
        } else {
          assert r[1..] == rest[1..];
          assert Join(r, sep) == [s[0]] + rest[0] + [sep] + Join(rest[1..], sep);
        }
        HeadTail(s);
      }
    }
  }

  lemma {:induction false} SplitPrefix(a: string, b: string, sep: char)
    requires sep !in a
    ensures Split(a + b, sep) == [a + Split(b, sep)[0]] + Split(b, sep)[1..]
    decreases |a|
  {
    if |a| > 0 {
      var x := Split(b, sep);
      assert (a + b)[1..] == a[1..] + b;
      assert (a + b)[0] == a[0] && a[0] != sep;
      SplitPrefix(a[1..], b, sep);
      var rest := Split(a[1..] + b, sep);
      assert rest == [a[1..] + x[0]] + x[1..];
      assert Split(a + b, sep) == [[a[0]] + rest[0]] + rest[1..];
      assert [a[0]] + (a[1..] + x[0]) == a + x[0];
    } else {
      assert a + b == b;
      assert a + Split(b, sep)[0] == Split(b, sep)[0];
      assert Split(b, sep) == [Split(b, sep)[0]] + Split(b, sep)[1..];
    }
  }

  /** Joining delimiter-free pieces and splitting again gives back the pieces. */
  lemma {:induction false} SplitJoin(parts: seq<string>, sep: char)
    requires |parts| >= 1
    requires forall i :: 0 <= i < |parts| ==> sep !in parts[i]
    ensures Split(Join(parts, sep), sep) == parts
    decreases |parts|
  {
    if |parts| == 1 {
      SplitPrefix(parts[0], "", sep);
      assert parts[0] + "" == parts[0];
      assert Split("", sep) == [""];
      assert Join(parts, sep) == parts[0];
    } else {
      var tail := Join(parts[1..], sep);
      SplitJoin(parts[1..], sep);
      SplitPrefix(parts[0], [sep] + tail, sep);
      assert parts[0] + [sep] + tail == parts[0] + ([sep] + tail);
      assert ([sep] + tail)[1..] == tail;
      assert ([sep] + tail)[0] == sep;
      var y := Split([sep] + tail, sep);
      assert y == [""] + parts[1..];
      assert y[0] == "" && y[1..] == parts[1..];
      assert Join(parts, sep) == parts[0] + ([sep] + tail);
      assert parts[0] + y[0] == parts[0];
      HeadTail(parts);
    }
  }

  /** Groups of four characters separated by single spaces: `chunked(4).joinToString(" ")`. */
  function Group4(s: string): (r: string)
    decreases |s|
  {
    if |s| <= 4 then s else s[..4] + " " + Group4(s[4..])
  }

  /** Filtering out the separator of a grouped string whose characters all pass restores it. */
  lemma FilterThenSeparator(head: string, p: char -> bool)
    requires forall i :: 0 <= i < |head| ==> p(head[i])
    requires !p(' ')
    ensures Filter(head + " ", p) == head
  {
    FilterConcat(head, " ", p);
    FilterAll(head, p);
    assert Filter(" ", p) == [];
  }

  /** Filtering a sequence split into two pieces whose filtered forms are known. */
  lemma FilterSplit(whole: string, a: string, b: string, p: char -> bool, x: string, y: string)
    requires whole == a + b && Filter(a, p) == x && Filter(b, p) == y
    ensures Filter(whole, p) == x + y
  {
    FilterConcat(a, b, p);
  }

  /** One group in front of a tail that filtering already restores. */
  lemma FilterGroupStep(s: string, p: char -> bool)
    requires |s| > 4 && forall i :: 0 <= i < 4 ==> p(s[i])
    requires !p(' ')
    requires Filter(Group4(s[4..]), p) == s[4..]
    ensures Filter(Group4(s), p) == s
  {
    FilterThenSeparator(s[..4], p);
    FilterSplit(Group4(s), s[..4] + " ", Group4(s[4..]), p, s[..4], s[4..]);
    TakeDrop(s, 4);
  }

  lemma {:induction false} FilterGroup4(s: string, p: char -> bool)
    requires forall i :: 0 <= i < |s| ==> p(s[i])
    requires !p(' ')
    ensures Filter(Group4(s), p) == s
    decreases |s|
  {
    if |s| <= 4 {
      FilterAll(s, p);
    } else {
      var tail := s[4..];
      forall i | 0 <= i < |tail| ensures p(tail[i]) {
        assert tail[i] == s[i + 4];
      }
      FilterGroup4(tail, p);
      FilterGroupStep(s, p);
    }
  }

  /**
   * Where each character of a grouped string comes from: every fifth
   * position holds the separator, and the others hold the input in order.
   */
  lemma {:induction false} Group4At(s: string, k: int)
    requires 0 <= k < |Group4(s)|
    ensures k % 5 == 4 ==> Group4(s)[k] == ' '
    ensures k % 5 != 4 ==> 0 <= k - k / 5 < |s| && Group4(s)[k] == s[k - k / 5]
    decreases |s|
  {
    if |s| > 4 && k >= 5 {
      Group4At(s[4..], k - 5);
      assert (k - 5) % 5 == k % 5 && (k - 5) / 5 == k / 5 - 1;
    }
  }

  /** Removing the spaces of a grouped space-free string restores it. */
  lemma RemoveSpacesGroup4(s: string)
    requires ' ' !in s
    ensures RemoveSpaces(Group4(s)) == s
  {
    FilterGroup4(s, c => c != ' ');
  }

  /** Grouping digits adds only spaces: the digits of the grouped string are the input. */
  lemma DigitsGroup4(s: string)
    requires AllDigits(s)
    ensures Digits(Group4(s)) == s
  {
    FilterGroup4(s, IsDigit);
  }

  lemma {:induction false} DigitsOfDigits(s: string)
    requires AllDigits(s)
    ensures Digits(s) == s
  {
    FilterAll(s, IsDigit);
  }

  // ---------------------------------------------------------------------
  // Decimal integers: Kotlin `Int.toString()` and `String.toIntOrNull()`
  // ---------------------------------------------------------------------

  const IntMin: int := -0x8000_0000
  const IntMax: int := 0x7fff_ffff

  function DigitChar(d: nat): char
    requires d < 10
  {
    ('0' as int + d) as char
  }

  function DigitValue(c: char): nat
    requires IsDigit(c)
  {
    c as int - '0' as int
  }

  /** The decimal digits of `n`, most significant first, without leading zeros. */
  function NatToString(n: nat): (r: string)
    ensures |r| >= 1 && AllDigits(r)
    decreases n
  {
    if n < 10 then [DigitChar(n)] else NatToString(n / 10) + [DigitChar(n % 10)]
  }

  /** A positive value prints without a leading zero. */
  lemma {:induction false} NatToStringLeading(n: nat)
    requires n > 0
    ensures NatToString(n)[0] != '0'
    decreases n
  {
    if n >= 10 {
      NatToStringLeading(n / 10);
    }
  }

  /** Kotlin `Int.toString()`: a minus sign for negative values, then the digits. */
  function IntToString(n: int): (r: string)
    ensures |r| >= 1
    ensures n >= 0 ==> AllDigits(r)
    ensures n < 0 ==> r[0] == '-' && AllDigits(r[1..])
  {
    if n < 0 then "-" + NatToString(-n) else NatToString(n)
  }

  function DigitsValue(s: string): nat
    requires AllDigits(s)
    decreases |s|
  {
    if |s| == 0 then 0 else DigitsValue(s[..|s| - 1]) * 10 + DigitValue(s[|s| - 1])
  }

  lemma {:induction false} DigitsValueOfNatToString(n: nat)
    ensures DigitsValue(NatToString(n)) == n
    decreases n
  {
    if n >= 10 {
      DigitsValueOfNatToString(n / 10);
      var r := NatToString(n);
      assert r[..|r| - 1] == NatToString(n / 10);
    }
  }

  /** The text after an optional leading sign. */
  function Unsigned(s: string): (r: string)
    ensures |r| <= |s|
  {
    if |s| > 0 && (s[0] == '-' || s[0] == '+') then s[1..] else s
  }

  /**
   * Kotlin `toIntOrNull()` (radix 10): an optional sign, then at least one
   * digit and nothing else, with a value inside the 32-bit range.
   */
  function ParseInt(s: string): (r: Option<int>)
    ensures r.Some? <==> |s| > 0 && |Unsigned(s)| > 0 && AllDigits(Unsigned(s)) &&
                         (if s[0] == '-' then DigitsValue(Unsigned(s)) <= 0 - IntMin else DigitsValue(Unsigned(s)) <= IntMax)
    ensures r.Some? ==> r.value == if s[0] == '-' then 0 - DigitsValue(Unsigned(s)) else DigitsValue(Unsigned(s))
    ensures r.Some? ==> IntMin <= r.value <= IntMax
  {
    if |s| == 0 then None
    else
      var negative := s[0] == '-';
      var body := Unsigned(s);
      if |body| == 0 || !AllDigits(body) then None
      else
        var v: int := if negative then 0 - DigitsValue(body) else DigitsValue(body);
        if IntMin <= v <= IntMax then Some(v) else None
  }

  lemma DigitOfDigit(c: char)
    requires IsDigit(c)
    ensures DigitValue(c) < 10 && DigitChar(DigitValue(c)) == c
  {
  }

  /** A run of digits that does not start with '0' is how its value prints. */
  lemma {:induction false} NoLeadingZeroSpells(b: string)
    requires |b| > 0 && AllDigits(b) && b[0] != '0'
    ensures NatToString(DigitsValue(b)) == b
    ensures DigitsValue(b) > 0
    decreases |b|
  {
    var last := b[|b| - 1];
    DigitOfDigit(last);
    if |b| > 1 {
      var front := b[..|b| - 1];
      NoLeadingZeroSpells(front);
      var n := DigitsValue(b);
      assert n == DigitsValue(front) * 10 + DigitValue(last);
      assert n / 10 == DigitsValue(front) && n % 10 == DigitValue(last);
      assert b == front + [last];
    }
  }

  /** A leading '0' adds nothing to the value. */
  lemma {:induction false} LeadingZeroValue(t: string)
    requires AllDigits(t)
    ensures AllDigits("0" + t) && DigitsValue("0" + t) == DigitsValue(t)
    decreases |t|
  {
    var b := "0" + t;
    assert AllDigits(b) by {
      forall i | 0 <= i < |b| ensures IsDigit(b[i]) {
        if i > 0 {
          assert b[i] == t[i - 1];
        }
      }
    }
    if |t| > 0 {
      var front := t[..|t| - 1];
      LeadingZeroValue(front);
      assert b[..|b| - 1] == "0" + front;
    }
  }

  /** The first z characters are zeros. */
  predicate ZeroRun(b: string, z: int)
    requires 0 <= z <= |b|
  {
    forall i :: 0 <= i < z ==> b[i] == '0'
  }

  /** A zero in front lengthens the run of zeros by one and keeps what follows it. */
  lemma ZeroRunCons(t: string, z: int)
    requires 0 <= z <= |t| && ZeroRun(t, z)
    ensures ZeroRun("0" + t, z + 1) && ("0" + t)[z + 1..] == t[z..]
  {
    var b := "0" + t;
    forall i | 0 <= i < z + 1 ensures b[i] == '0' {
      if i > 0 {
        assert b[i] == t[i - 1];
      }
    }
  }

  /** Leading zeros, then the digits of the value: the shape of every run of digits. */
  lemma {:induction false} DigitsSpellValue(b: string)
    requires |b| > 0 && AllDigits(b)
    ensures exists z :: 0 <= z < |b| && ZeroRun(b, z) && b[z..] == NatToString(DigitsValue(b))
    decreases |b|
  {
    if b[0] != '0' {
      NoLeadingZeroSpells(b);
      assert ZeroRun(b, 0) && b[0..] == b;
    } else if |b| == 1 {
      assert ZeroRun(b, 0) && b[0..] == "0" == NatToString(DigitsValue(b));
    } else {
      var t := b[1..];
      assert b == "0" + t;
      DigitsSpellValue(t);
      var z :| 0 <= z < |t| && ZeroRun(t, z) && t[z..] == NatToString(DigitsValue(t));
      LeadingZeroValue(t);
      ZeroRunCons(t, z);
    }
  }

  /**
   * What a successful parse read: a '-' exactly for a value below zero or
   * "-0", and after the sign, leading zeros followed by the value's digits.
   */
  lemma ParseIntShape(s: string)
    requires ParseInt(s).Some?
    ensures ParseInt(s).value < 0 ==> s[0] == '-'
    ensures ParseInt(s).value > 0 ==> s[0] != '-'
    ensures var v := ParseInt(s).value; var body := Unsigned(s);
            exists z :: 0 <= z < |body| && ZeroRun(body, z) && body[z..] == NatToString(if v < 0 then 0 - v else v)
  {
    DigitsSpellValue(Unsigned(s));
  }

  /** `toIntOrNull() ?: default`. */
  function ParseIntOr(s: string, default: int): int
  {
    ParseInt(s).GetOr(default)
  }

  /** Digits with an optional sign in front, whose value fits, parse to that value. */
  lemma ParseIntAccepts(s: string, negative: bool, digits: string)
    requires |digits| > 0 && AllDigits(digits)
    requires s == (if negative then "-" + digits else digits)
    requires if negative then DigitsValue(digits) <= 0 - IntMin else DigitsValue(digits) <= IntMax
    ensures ParseInt(s) == Some(if negative then 0 - DigitsValue(digits) else DigitsValue(digits))
  {
    assert IsDigit(digits[0]);
    assert Unsigned(s) == digits;
  }

  /** Printing a 32-bit value and parsing it back gives the value. */
  lemma ParseIntToString(n: int)
    requires IntMin <= n <= IntMax
    ensures ParseInt(IntToString(n)) == Some(n)
  {
    if n < 0 {
      DigitsValueOfNatToString(-n);
      ParseIntAccepts(IntToString(n), true, NatToString(-n));
    } else {
      DigitsValueOfNatToString(n);
      ParseIntAccepts(IntToString(n), false, NatToString(n));
    }
  }

  /** Distinct integers print differently. */
  lemma IntToStringInjective(a: int, b: int)
    requires IntToString(a) == IntToString(b)
    ensures a == b
  {
    if a >= 0 && b >= 0 {
      DigitsValueOfNatToString(a);
      DigitsValueOfNatToString(b);
    } else if a < 0 && b < 0 {
      assert IntToString(a)[1..] == NatToString(-a);
      assert IntToString(b)[1..] == NatToString(-b);
      DigitsValueOfNatToString(-a);
      DigitsValueOfNatToString(-b);
    }
  }
}
