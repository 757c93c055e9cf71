/**
 * The parts of the Java and Guava runtime that the core leans on: the
 * exception kinds it raises, the 32- and 64-bit integer ranges, decimal
 * formatting (`String.valueOf`), the four integer parsers, `List.indexOf`,
 * `String.replace` on a character and `StringJoiner`.
 */
module JavaLang {
  import opened Wrappers

  /** The exception classes the core raises or catches. */
  datatype Fault =
    | NumberFormat      // NumberFormatException from a numeric parse
    | IllegalArgument   // IllegalArgumentException: checkArgument, duplicate ImmutableMap keys
    | IllegalState      // IllegalStateException: checkState
    | IndexOutOfBounds  // IndexOutOfBoundsException: checkElementIndex, CSVRecord.get past the end
    | NullPointer       // NullPointerException: checkNotNull
    | Arithmetic        // ArithmeticException: Math.multiplyExact overflow

  const INT_MIN: int := -0x8000_0000
  const INT_MAX: int := 0x7fff_ffff
  const LONG_MIN: int := -0x8000_0000_0000_0000
  const LONG_MAX: int := 0x7fff_ffff_ffff_ffff

  predicate IsInt(n: int) { INT_MIN <= n <= INT_MAX }
  predicate IsLong(n: int) { LONG_MIN <= n <= LONG_MAX }

  /** Java `int` and `long` values. */
  type Int32 = n: int | IsInt(n)
  type Int64 = n: int | IsLong(n)

  // ---------------------------------------------------------------------
  // Decimal numerals

  predicate IsDigit(c: char) { '0' <= c <= '9' }

  predicate AllDigits(s: string) { forall i :: 0 <= i < |s| ==> IsDigit(s[i]) }

  function DigitChar(d: nat): (c: char)
    requires d < 10
    ensures IsDigit(c)
  {
    ('0' as int + d) as char
  }

  /** The shortest decimal numeral of `n`, most significant digit first. */
  function Digits(n: nat): (s: string)
    ensures |s| > 0 && AllDigits(s)
    ensures n >= 10 ==> s[0] != '0'
    decreases n
  {
    if n < 10 then [DigitChar(n)] else Digits(n / 10) + [DigitChar(n % 10)]
  }

  /** The value of a digit string, read most significant digit first. */
  function ValueOf(s: string): nat
    requires AllDigits(s)
  {
    if |s| == 0 then 0 else ValueOf(s[..|s| - 1]) * 10 + (s[|s| - 1] as int - '0' as int)
  }

  /** `String.valueOf` of an int or a long: a '-' for negatives, then the digits. */
  function DecimalString(n: int): (r: string)
    ensures |r| > 0 && (r[0] == '-' <==> n < 0)
    ensures AllDigits(if n < 0 then r[1..] else r)
  {
    if n < 0 then "-" + Digits(-n) else Digits(n)
  }

  /**
   * The value of an optionally signed decimal numeral of ASCII digits, or None.
   * `plusAllowed` selects whether a leading '+' is accepted: `Integer.parseInt`
   * and `Long.parseLong` accept it, Guava's `Ints.tryParse` and
   * `Longs.tryParse` do not.
   */
  function ParseNumeral(s: string, plusAllowed: bool): Option<int>
  {
    if |s| >= 2 && s[0] == '-' && AllDigits(s[1..]) then Some(0 - ValueOf(s[1..]) as int)
    else if |s| >= 2 && s[0] == '+' && plusAllowed && AllDigits(s[1..]) then Some(ValueOf(s[1..]))
    else if |s| >= 1 && AllDigits(s) then Some(ValueOf(s))
    else None
  }

  /** `Integer.parseInt`. */
  function ParseInt(s: string): (r: Result<int, Fault>)
    ensures r.Ok? ==> IsInt(r.value)
    ensures r.Err? ==> r.error == NumberFormat
  {
    match ParseNumeral(s, true)
    case Some(n) => if IsInt(n) then Ok(n) else Err(NumberFormat)
    case None => Err(NumberFormat)
  }

  /** `Long.parseLong`. */
  function ParseLong(s: string): (r: Result<int, Fault>)
    ensures r.Ok? ==> IsLong(r.value)
    ensures r.Err? ==> r.error == NumberFormat
  {
    match ParseNumeral(s, true)
    case Some(n) => if IsLong(n) then Ok(n) else Err(NumberFormat)
    case None => Err(NumberFormat)
  }

  /** Guava `Ints.tryParse`: None (Java null) instead of an exception. */
  function TryParseInt(s: string): (r: Option<int>)
    ensures r.Some? ==> IsInt(r.value)
  {
    match ParseNumeral(s, false)
    case Some(n) => if IsInt(n) then Some(n) else None
    case None => None
  }

  /** Guava `Longs.tryParse`. */
  function TryParseLong(s: string): (r: Option<int>)
    ensures r.Some? ==> IsLong(r.value)
  {
    match ParseNumeral(s, false)
    case Some(n) => if IsLong(n) then Some(n) else None
    case None => None
  }

  lemma {:induction false} ValueOfDigits(n: nat)
    ensures ValueOf(Digits(n)) == n
    decreases n
  {
    if n >= 10 {
      var s := Digits(n);
      assert s[..|s| - 1] == Digits(n / 10);
      ValueOfDigits(n / 10);
    }
  }

  /** Every parser reads back what `String.valueOf` wrote. */
  lemma NumeralOfDecimal(n: int, plusAllowed: bool)
    ensures ParseNumeral(DecimalString(n), plusAllowed) == Some(n)
  {
    var s := DecimalString(n);
    if n < 0 {
      var d := Digits(-n);
      assert s == "-" + d && s[1..] == d;
      assert |s| >= 2 && s[0] == '-' && AllDigits(s[1..]);
      ValueOfDigits(-n);
      assert ValueOf(s[1..]) == -n;
    } else {
      assert s == Digits(n) && AllDigits(s) && |s| >= 1;
      assert IsDigit(s[0]);
      assert s[0] != '-' && s[0] != '+';
      ValueOfDigits(n);
    }
  }

  /** `Integer.parseInt(String.valueOf(n)) == n` and likewise for `Ints.tryParse`. */
  lemma IntDecimalRoundTrip(n: int)
    requires IsInt(n)
    ensures ParseInt(DecimalString(n)) == Ok(n)
    ensures TryParseInt(DecimalString(n)) == Some(n)
  {
    NumeralOfDecimal(n, true);
    NumeralOfDecimal(n, false);
  }

  /** `Long.parseLong(String.valueOf(n)) == n` and likewise for `Longs.tryParse`. */
  lemma LongDecimalRoundTrip(n: int)
    requires IsLong(n)
    ensures ParseLong(DecimalString(n)) == Ok(n)
    ensures TryParseLong(DecimalString(n)) == Some(n)
  {
    NumeralOfDecimal(n, true);
    NumeralOfDecimal(n, false);
  }

  /** A value outside the int range is written fine but does not parse back as an int. */
  lemma IntOverflowRejected(n: int)
    requires !IsInt(n)
    ensures ParseInt(DecimalString(n)) == Err(NumberFormat)
    ensures TryParseInt(DecimalString(n)) == None
  {
    NumeralOfDecimal(n, true);
    NumeralOfDecimal(n, false);
  }

  /** Different numbers have different decimal strings. */
  lemma DecimalStringInjective(a: int, b: int)
    requires DecimalString(a) == DecimalString(b)
    ensures a == b
  {
    NumeralOfDecimal(a, false);
    NumeralOfDecimal(b, false);
  }

  /**
   * Guava's parsers accept a subset of what Java's accept and agree on it;
   * the difference is exactly the leading '+'.
   */
  lemma TryParseAgrees(s: string)
    ensures TryParseInt(s).Some? ==> ParseInt(s) == Ok(TryParseInt(s).value)
    ensures TryParseLong(s).Some? ==> ParseLong(s) == Ok(TryParseLong(s).value)
    ensures ParseInt(s).Ok? && TryParseInt(s).None? ==> s[0] == '+'
    ensures ParseLong(s).Ok? && TryParseLong(s).None? ==> s[0] == '+'
  {
  }

  /** An int parse that succeeds gives the same value as a long parse. */
  lemma ParseIntWidens(s: string)
    requires ParseInt(s).Ok?
    ensures ParseLong(s) == ParseInt(s)
  {
  }

  // ---------------------------------------------------------------------
  // Lists

  predicate Distinct<T(==)>(s: seq<T>)
  {
    forall i, j :: 0 <= i < j < |s| ==> s[i] != s[j]
  }

  /** Distinctness of the pairs whose first index lies in [lo, hi). */
  predicate DistinctFrom<T(==)>(s: seq<T>, lo: int, hi: int)
  {
    forall i, j :: lo <= i < hi && 0 <= i < j < |s| ==> s[i] != s[j]
  }

  lemma DistinctByChunks<T>(s: seq<T>, cuts: seq<int>)
    requires |cuts| >= 2 && cuts[0] == 0 && cuts[|cuts| - 1] == |s|
    requires forall k :: 0 <= k < |cuts| - 1 ==> DistinctFrom(s, cuts[k], cuts[k + 1])
    ensures Distinct(s)
  {
    forall i, j | 0 <= i < j < |s| ensures s[i] != s[j] {
      var k := ChunkOf(cuts, i);
      assert DistinctFrom(s, cuts[k], cuts[k + 1]);
    }
  }

  /** The index of the chunk of `cuts` that holds position `i`. */
  lemma ChunkOf(cuts: seq<int>, i: int) returns (k: int)
    requires |cuts| >= 2 && cuts[0] <= i < cuts[|cuts| - 1]
    ensures 0 <= k < |cuts| - 1 && cuts[k] <= i < cuts[k + 1]
    decreases |cuts|
  {
    if i < cuts[1] {
      k := 0;
    } else {
      k := ChunkOf(cuts[1..], i);
      k := k + 1;
    }
  }

  function IndexFrom<T(==)>(s: seq<T>, x: T, k: nat): (i: int)
    requires k <= |s|
    ensures i == -1 || k <= i < |s|
    ensures i == -1 ==> forall j :: k <= j < |s| ==> s[j] != x
    ensures i != -1 ==> s[i] == x && forall j :: k <= j < i ==> s[j] != x
    decreases |s| - k
  {
    if k == |s| then -1 else if s[k] == x then k else IndexFrom(s, x, k + 1)
  }

  /** `List.indexOf`: the first position holding `x`, or -1. */
  function IndexOf<T(==)>(s: seq<T>, x: T): (i: int)
    ensures -1 <= i < |s|
    ensures i == -1 <==> x !in s
    ensures i != -1 ==> s[i] == x && forall j :: 0 <= j < i ==> s[j] != x
  {
    IndexFrom(s, x, 0)
  }

  /** In a list without repeats, each element is found at its own position. */
  lemma IndexOfDistinct<T>(s: seq<T>, i: int)
    requires Distinct(s) && 0 <= i < |s|
    ensures IndexOf(s, s[i]) == i
  {
  }

  // ---------------------------------------------------------------------
  // Strings

  /** `String.replace(char, char)`. */
  function Replace(s: string, from: char, to: char): (r: string)
    ensures |r| == |s|
    ensures forall i :: 0 <= i < |s| ==> r[i] == if s[i] == from then to else s[i]
  {
    if |s| == 0 then "" else [if s[0] == from then to else s[0]] + Replace(s[1..], from, to)
  }

  /** What a `StringJoiner` with separator `sep` and no prefix or suffix produces. */
  function Joined(parts: seq<string>, sep: char): string
  {
    if |parts| == 0 then ""
    else if |parts| == 1 then parts[0]
    else parts[0] + [sep] + Joined(parts[1..], sep)
  }

  /** `StringJoiner.add`: the first part is taken as it is, every later one after a separator. */
  lemma {:induction false} JoinedSnoc(parts: seq<string>, sep: char, t: string)
    ensures Joined(parts + [t], sep) == if |parts| == 0 then t else Joined(parts, sep) + [sep] + t
    decreases |parts|
  {
    if |parts| > 1 {
      assert (parts + [t])[1..] == parts[1..] + [t];
      JoinedSnoc(parts[1..], sep, t);
    } else if |parts| == 1 {
      assert (parts + [t])[1..] == [t];
    }
  }

  /** Cutting a string at every `sep`; the inverse of `Joined` for separator-free parts. */
  function Split(s: string, sep: char): (parts: seq<string>)
    ensures |parts| > 0
  {
    if |s| == 0 then [""]
    else
      var rest := Split(s[1..], sep);
      if s[0] == sep then [""] + rest else [[s[0]] + rest[0]] + rest[1..]
  }

  lemma {:induction false} SplitWithout(t: string, sep: char)
    requires sep !in t
    ensures Split(t, sep) == [t]
  {
    if |t| > 0 {
      SplitWithout(t[1..], sep);
      assert [t[0]] + t[1..] == t;
    }
  }

  lemma {:induction false} SplitAfter(t: string, sep: char, u: string)
    requires sep !in t
    ensures Split(t + [sep] + u, sep) == [t] + Split(u, sep)
    decreases |t|
  {
    var s := t + [sep] + u;
    if |t| == 0 {
      assert s[1..] == u;
    } else {
      assert s[1..] == t[1..] + [sep] + u;
      SplitAfter(t[1..], sep, u);
      assert [t[0]] + t[1..] == t;
    }
  }

  /** Splitting a join of separator-free parts gives the parts back. */
  lemma {:induction false} SplitJoined(parts: seq<string>, sep: char)
    requires |parts| > 0
    requires forall k :: 0 <= k < |parts| ==> sep !in parts[k]
    ensures Split(Joined(parts, sep), sep) == parts
    decreases |parts|
  {
    if |parts| == 1 {
      SplitWithout(parts[0], sep);
    } else {
      SplitJoined(parts[1..], sep);
      SplitAfter(parts[0], sep, Joined(parts[1..], sep));
      assert [parts[0]] + parts[1..] == parts;
    }
  }

  // ---------------------------------------------------------------------
  // String.format

  /** An argument passed to `String.format`. */
  datatype FormatArg = IntArg(n: Int32) | StrArg(s: string) | CharArg(c: char)

  /**
   * One conversion: `%d` prints an int, `%s` prints any argument, `%c` a
   * char. Any other pairing is an `IllegalFormatConversionException`, an
   * IllegalArgumentException.
   */
  function Convert(conversion: char, arg: FormatArg): Result<string, Fault>
  {
    match (conversion, arg)
    case ('d', IntArg(n)) => Ok(DecimalString(n))
    case ('s', IntArg(n)) => Ok(DecimalString(n))
    case ('s', StrArg(t)) => Ok(t)
    case ('s', CharArg(c)) => Ok([c])
    case ('c', CharArg(c)) => Ok([c])
    case _ => Err(IllegalArgument)
  }

  /**
   * `String.format(fmt, args)` for format strings whose only specifiers are
   * `%d`, `%s` and `%c`, in a locale that writes ASCII digits. Arguments are
   * taken in order; a missing one, an unknown conversion or a lone '%' is an
   * IllegalArgumentException. Arguments left over are ignored.
   */
  function Format(fmt: string, args: seq<FormatArg>): Result<string, Fault>
    decreases |fmt|
  {
    if |fmt| == 0 then Ok("")
    else if fmt[0] != '%' then
      var rest :- Format(fmt[1..], args);
      Ok([fmt[0]] + rest)
    else if |fmt| == 1 || fmt[1] !in "dsc" || |args| == 0 then Err(IllegalArgument)
    else
      var text :- Convert(fmt[1], args[0]);
      var rest :- Format(fmt[2..], args[1..]);
      Ok(text + rest)
  }

  /** Text without a '%' is copied to the output as it is. */
  lemma {:induction false} FormatLiteral(lit: string, rest: string, args: seq<FormatArg>)
    requires '%' !in lit
    ensures Format(lit + rest, args) == if Format(rest, args).Ok? then Ok(lit + Format(rest, args).value) else Format(rest, args)
    decreases |lit|
  {
    if |lit| == 0 {
      assert lit + rest == rest;
      if Format(rest, args).Ok? {
        assert lit + Format(rest, args).value == Format(rest, args).value;
      }
    } else {
      assert (lit + rest)[0] == lit[0] && lit[0] in lit;
      assert (lit + rest)[1..] == lit[1..] + rest;
      FormatLiteral(lit[1..], rest, args);
      if Format(rest, args).Ok? {
        assert [lit[0]] + (lit[1..] + Format(rest, args).value) == lit + Format(rest, args).value;
      }
    }
  }

  /** A format ending in one specifier, after text without a '%', prints the text and then the argument. */
  lemma FormatOne(lit: string, conversion: char, arg: FormatArg)
    requires '%' !in lit && conversion in "dsc"
    ensures Format(lit + ['%', conversion], [arg]) ==
      if Convert(conversion, arg).Ok? then Ok(lit + Convert(conversion, arg).value) else Convert(conversion, arg)
  {
    var spec := ['%', conversion];
    FormatLiteral(lit, spec, [arg]);
    assert spec[2..] == "";
    if Convert(conversion, arg).Ok? {
      assert Convert(conversion, arg).value + "" == Convert(conversion, arg).value;
    }
  }
}
