/**
 * The parts of Kotlin's string library that the app relies on when it stores
 * day lists as text: `isBlank`, `split`, `joinToString`, `Int.toString` and
 * `String.toInt` (which on the JVM is `Integer.parseInt`).
 */
module KotlinText {
  import opened Wrappers

  /** Kotlin's `Int`: a 32-bit two's-complement integer. */
  type Int32 = x: int | -0x8000_0000 <= x <= 0x7FFF_FFFF

  /** `Char.isWhitespace()`: Java's whitespace characters and Unicode space separators. */
  predicate IsWhitespace(c: char) {
    || ('\t' <= c <= '\r')
    || ('\U{1C}' <= c <= ' ')
    || c == '\U{A0}' || c == '\U{1680}'
    || ('\U{2000}' <= c <= '\U{200A}')
    || c == '\U{2028}' || c == '\U{2029}' || c == '\U{202F}' || c == '\U{205F}' || c == '\U{3000}'
  }

  /** `CharSequence.isBlank()`: empty, or whitespace only. */
  predicate IsBlank(s: string) {
    forall i :: 0 <= i < |s| ==> IsWhitespace(s[i])
  }

  /** `Iterable.joinToString(sep)` over strings: "" for no parts, no separator after the last part. */
  function Join(parts: seq<string>, sep: string): string {
    if |parts| == 0 then ""
    else if |parts| == 1 then parts[0]
    else parts[0] + sep + Join(parts[1..], sep)
  }

  /**
   * `CharSequence.split(sep)` for one separator character: the maximal
   * separator-free pieces, always at least one (the empty string splits to [""]).
   */
  function Split(s: string, sep: char): (parts: seq<string>)
    ensures |parts| >= 1
    ensures forall i :: 0 <= i < |parts| ==> sep !in parts[i]
    ensures Join(parts, [sep]) == s
    decreases |s|
  {
    if |s| == 0 then [""]
    else
      var rest := Split(s[1..], sep);
      if s[0] == sep then
        assert s == [sep] + s[1..];
        [""] + rest
      else
        var p := [[s[0]] + rest[0]] + rest[1..];
        assert p[1..] == rest[1..];
        JoinCons(s[0], rest, [sep]);
        p
  }

  lemma JoinCons(c: char, parts: seq<string>, sep: string)
    requires |parts| >= 1
    ensures Join([[c] + parts[0]] + parts[1..], sep) == [c] + Join(parts, sep)
  {
    var p := [[c] + parts[0]] + parts[1..];
    assert p[1..] == parts[1..];
  }

  /** Splitting a separator-free string gives that string alone. */
  lemma {:induction false} SplitNoSeparator(s: string, sep: char)
    requires sep !in s
    ensures Split(s, sep) == [s]
    decreases |s|
  {
    if |s| > 0 {
      SplitNoSeparator(s[1..], sep);
    }
  }

  /** A separator ends the first piece. */
  lemma {:induction false} SplitAtSeparator(a: string, sep: char, b: string)
    requires sep !in a
    ensures Split(a + [sep] + b, sep) == [a] + Split(b, sep)
    decreases |a|
  {
    var s := a + [sep] + b;
    if |a| == 0 {
      assert s[1..] == b;
    } else {
      assert s[1..] == a[1..] + [sep] + b;
      SplitAtSeparator(a[1..], sep, b);
      assert [s[0]] + a[1..] == a;
    }
  }

  /** `split` undoes `joinToString` when no part contains the separator. */
  lemma {:induction false} SplitJoin(parts: seq<string>, sep: char)
    requires |parts| >= 1
    requires forall i :: 0 <= i < |parts| ==> sep !in parts[i]
    ensures Split(Join(parts, [sep]), sep) == parts
    decreases |parts|
  {
    if |parts| == 1 {
      SplitNoSeparator(parts[0], sep);
    } else {
      SplitJoin(parts[1..], sep);
      SplitAtSeparator(parts[0], sep, Join(parts[1..], [sep]));
      assert [parts[0]] + parts[1..] == parts;
    }
  }

  predicate IsDigit(c: char) { '0' <= c <= '9' }

  predicate AllDigits(s: string) { forall i :: 0 <= i < |s| ==> IsDigit(s[i]) }

  function DigitChar(d: nat): (c: char)
    requires d < 10
    ensures IsDigit(c)
  {
    "0123456789"[d]
  }

  function DigitValue(c: char): (d: nat)
    requires IsDigit(c)
    ensures d < 10
  {
    (c as int - '0' as int) as nat
  }

  lemma DigitRoundTrip(d: nat)
    requires d < 10
    ensures DigitValue(DigitChar(d)) == d
  {
  }

  /** The decimal value of a string of digits, most significant first. */
  function DigitsValue(s: string): nat
    requires AllDigits(s)
    decreases |s|
  {
    if |s| == 0 then 0 else DigitsValue(s[..|s| - 1]) * 10 + DigitValue(s[|s| - 1])
  }

  /** The decimal digits of a natural number, without leading zeros. */
  function NatToDigits(n: nat): (s: string)
    ensures |s| >= 1 && AllDigits(s)
    ensures |s| > 1 ==> s[0] != '0'
    decreases n
  {
    if n < 10 then [DigitChar(n)] else NatToDigits(n / 10) + [DigitChar(n % 10)]
  }

  lemma {:induction false} DigitsValueOfNat(n: nat)
    ensures DigitsValue(NatToDigits(n)) == n
    decreases n
  {
    var s := NatToDigits(n);
    DigitRoundTrip(n % 10);
    if n >= 10 {
      DigitsValueOfNat(n / 10);
      assert s[..|s| - 1] == NatToDigits(n / 10);
    }
  }

  /** `Int.toString()`: optional minus sign, then the digits of the magnitude. */
  function IntToString(x: int): (s: string)
    ensures |s| >= 1 && ',' !in s
  {
    if x < 0 then "-" + NatToDigits(-x) else NatToDigits(x)
  }

  /**
   * `String.toInt()`: an optional '+' or '-', then one or more decimal digits,
   * whose value must fit in an `Int`; anything else throws, modelled as None.
   */
  function ParseInt(s: string): (r: Option<Int32>)
    ensures r.Some? ==> |s| >= 1 && (AllDigits(s) || (s[0] in "+-" && |s| >= 2 && AllDigits(s[1..])))
    ensures s == "" || s == "-" || s == "+" ==> r == None
  {
    if |s| == 0 then None
    else
      var signed := s[0] == '-' || s[0] == '+';
      var digits := if signed then s[1..] else s;
      if |digits| == 0 || !AllDigits(digits) then None
      else
        var magnitude: int := DigitsValue(digits);
        var v := if s[0] == '-' then -magnitude else magnitude;
        if -0x8000_0000 <= v <= 0x7FFF_FFFF then Some(v) else None
  }

  /** `toInt` reads back what `toString` wrote, for every `Int`. */
  lemma ParseIntToString(x: Int32)
    ensures ParseInt(IntToString(x)) == Some(x)
  {
    var n: int := x;
    if n < 0 {
      var d := NatToDigits(-n);
      DigitsValueOfNat(-n);
      assert DigitsValue(d) == -n;
      ParseSignedDigits(d);
      assert IntToString(x) == "-" + d;
    } else {
      var d := NatToDigits(n);
      DigitsValueOfNat(n);
      assert DigitsValue(d) == n;
      ParseUnsignedDigits(d);
      assert IntToString(x) == d;
    }
  }

  /** A minus sign followed by digits reads back as the negated value, when it fits. */
  lemma ParseSignedDigits(d: string)
    requires |d| >= 1 && AllDigits(d) && DigitsValue(d) <= 0x8000_0000
    ensures ParseInt("-" + d).Some? && ParseInt("-" + d).value == -(DigitsValue(d) as int)
  {
    var s := "-" + d;
    assert s[0] == '-' && s[1..] == d;
  }

  /** Plain digits read back as their value, when it fits. */
  lemma ParseUnsignedDigits(d: string)
    requires |d| >= 1 && AllDigits(d) && DigitsValue(d) <= 0x7FFF_FFFF
    ensures ParseInt(d) == Some(DigitsValue(d))
  {
    assert IsDigit(d[0]);
  }

  /** `map { it.toInt() }` over split pieces: fails as soon as one piece fails. */
  function ParseIntList(parts: seq<string>): (r: Option<seq<Int32>>)
    ensures r.Some? <==> forall i :: 0 <= i < |parts| ==> ParseInt(parts[i]).Some?
    ensures r.Some? ==> |r.value| == |parts| && forall i :: 0 <= i < |parts| ==> ParseInt(parts[i]) == Some(r.value[i])
  {
    if |parts| == 0 then Some([])
    else
      match (ParseInt(parts[0]), ParseIntList(parts[1..]))
      case (Some(x), Some(xs)) => Some([x] + xs)
      case _ => None
  }

  /** `map { it.toString() }`. */
  function IntsToStrings(xs: seq<Int32>): (r: seq<string>)
    ensures |r| == |xs| && forall i :: 0 <= i < |xs| ==> r[i] == IntToString(xs[i])
  {
    seq(|xs|, i requires 0 <= i < |xs| => IntToString(xs[i]))
  }

  /** A character that `Int.toString()` or the "," separator can produce. */
  predicate IsNumeralChar(c: char) { IsDigit(c) || c == '-' || c == ',' }

  lemma IntToStringChars(x: int)
    ensures forall i :: 0 <= i < |IntToString(x)| ==> IsNumeralChar(IntToString(x)[i])
  {
  }

  /** `joinToString(",")` over a list of `Int`s. */
  function JoinInts(xs: seq<Int32>): (s: string)
    ensures |xs| == 0 <==> s == ""
    ensures forall i :: 0 <= i < |s| ==> IsNumeralChar(s[i])
    decreases |xs|
  {
    var parts := IntsToStrings(xs);
    if |xs| == 0 then ""
    else if |xs| == 1 then
      IntToStringChars(xs[0]);
      parts[0]
    else
      var tail := JoinInts(xs[1..]);
      assert parts[1..] == IntsToStrings(xs[1..]);
      IntToStringChars(xs[0]);
      parts[0] + "," + tail
  }

  /** The encoded list is the decimal elements, in order, separated by single commas. */
  lemma {:induction false} JoinIntsIsJoin(xs: seq<Int32>)
    ensures JoinInts(xs) == Join(IntsToStrings(xs), ",")
    decreases |xs|
  {
    if |xs| > 1 {
      JoinIntsIsJoin(xs[1..]);
      assert IntsToStrings(xs)[1..] == IntsToStrings(xs[1..]);
    }
  }

  /** Splitting an encoded non-empty list at commas gives back each element's decimal text. */
  lemma SplitJoinInts(xs: seq<Int32>)
    requires |xs| >= 1
    ensures Split(JoinInts(xs), ',') == IntsToStrings(xs)
  {
    JoinIntsIsJoin(xs);
    SplitJoin(IntsToStrings(xs), ',');
  }

  /** Parsing the comma-split encoding of a day list gives the list back. */
  lemma ParseIntListOfStrings(xs: seq<Int32>)
    ensures ParseIntList(IntsToStrings(xs)) == Some(xs)
  {
    var strs := IntsToStrings(xs);
    forall i | 0 <= i < |xs|
      ensures ParseInt(strs[i]) == Some(xs[i])
    {
      ParseIntToString(xs[i]);
    }
    var r := ParseIntList(strs);
    assert r.value == xs;
  }

  /** A non-empty encoded list is never blank (it has at least one digit). */
  lemma JoinIntsNotBlank(xs: seq<Int32>)
    requires |xs| >= 1
    ensures !IsBlank(JoinInts(xs))
  {
    var s := JoinInts(xs);
    assert |s| > 0;
    assert IsNumeralChar(s[0]);
    assert !IsWhitespace(s[0]);
  }
}
