/**
 * String helpers with the exact semantics of the Java library calls the
 * configuration code relies on: `String.split`, `indexOf`/`lastIndexOf`,
 * `trim`, `Integer.parseInt`/`Long.parseLong`, `Integer.toString`,
 * `StringTokenizer` and the `%HH` URI escape used by `decode`.
 */
module Text {
  import opened Support

  // ---------------------------------------------------------------------------------------------
  // Character classes

  /** Characters that the Java regex `.` does not match (line terminators). */
  predicate IsLineTerminator(c: char) {
    c == '\n' || c == '\r' || c == '\U{85}' || c == '\U{2028}' || c == '\U{2029}'
  }

  /** The Java regex class `\s`. */
  predicate IsRegexSpace(c: char) {
    c == ' ' || c == '\t' || c == '\n' || c == '\U{0B}' || c == '\U{0C}' || c == '\r'
  }

  predicate StartsWith(s: string, prefix: string) {
    |prefix| <= |s| && s[..|prefix|] == prefix
  }

  // ---------------------------------------------------------------------------------------------
  // Splitting and joining

  /** Joins `xs` with `sep` between neighbours. */
  function JoinWith(xs: seq<string>, sep: char): string
    decreases |xs|
  {
    if |xs| == 0 then ""
    else if |xs| == 1 then xs[0]
    else xs[0] + [sep] + JoinWith(xs[1..], sep)
  }

  /**
   * All fields of `s` between occurrences of `sep`, empty ones included:
   * Java's `s.split(sep, -1)` for a one-character literal separator.
   */
  function SplitAll(s: string, sep: char): (r: seq<string>)
    ensures |r| >= 1
    ensures forall i :: 0 <= i < |r| ==> sep !in r[i]
    ensures JoinWith(r, sep) == s
    decreases |s|
  {
    if s == [] then [""]
    else
      var rest := SplitAll(s[1..], sep);
      assert rest == [rest[0]] + rest[1..];
      if s[0] == sep then
        assert s == [sep] + s[1..];
        [""] + rest
      else
        assert s == [s[0]] + s[1..];
        [[s[0]] + rest[0]] + rest[1..]
  }

  /** Drops the empty fields at the end of `xs`. */
  function DropTrailingEmpty(xs: seq<string>): (r: seq<string>)
    ensures |r| <= |xs| && r == xs[..|r|]
    ensures forall i :: |r| <= i < |xs| ==> xs[i] == ""
    ensures r == [] || r[|r| - 1] != ""
    decreases |xs|
  {
    if xs != [] && xs[|xs| - 1] == "" then DropTrailingEmpty(xs[..|xs| - 1]) else xs
  }

  /**
   * Java's `s.split(sep)` (limit 0): trailing empty fields are removed, except
   * that an input without any separator yields itself as the only field.
   */
  function JavaSplit(s: string, sep: char): (r: seq<string>)
    ensures forall i :: 0 <= i < |r| ==> sep !in r[i]
    ensures sep !in s ==> r == [s]
  {
    if s == "" then [""]
    else
      var all := SplitAll(s, sep);
      if sep !in s then
        SplitWithoutSeparator(s, sep);
        all
      else DropTrailingEmpty(all)
  }

  /** The non-empty fields of `s`, in order. */
  function NonEmptyFields(s: string, sep: char): (r: seq<string>)
    ensures forall i :: 0 <= i < |r| ==> r[i] != "" && sep !in r[i]
  {
    NonEmpty(JavaSplit(s, sep))
  }

  function NonEmpty(xs: seq<string>): (r: seq<string>)
    ensures forall i :: 0 <= i < |r| ==> r[i] != "" && r[i] in xs
    ensures forall x :: x in xs && x != "" ==> x in r
    decreases |xs|
  {
    if xs == [] then []
    else if xs[|xs| - 1] == "" then NonEmpty(xs[..|xs| - 1])
    else NonEmpty(xs[..|xs| - 1]) + [xs[|xs| - 1]]
  }

  lemma {:induction false} SplitWithoutSeparator(s: string, sep: char)
    requires sep !in s
    ensures SplitAll(s, sep) == [s]
    decreases |s|
  {
    if s != [] {
      SplitWithoutSeparator(s[1..], sep);
    }
  }

  lemma {:induction false} SplitAfterField(a: string, sep: char, b: string)
    requires sep !in a
    ensures SplitAll(a + [sep] + b, sep) == [a] + SplitAll(b, sep)
    decreases |a|
  {
    if a == [] {
      assert a + [sep] + b == [sep] + b;
      assert ([sep] + b)[1..] == b;
    } else {
      SplitAfterField(a[1..], sep, b);
      assert (a + [sep] + b)[1..] == a[1..] + [sep] + b;
      assert a == [a[0]] + a[1..];
    }
  }

  /** Two fields around one separator split back into those two fields. */
  lemma JavaSplitTwoFields(a: string, sep: char, b: string)
    requires sep !in a && sep !in b && b != ""
    ensures JavaSplit(a + [sep] + b, sep) == [a, b]
  {
    SplitAfterField(a, sep, b);
    SplitWithoutSeparator(b, sep);
    assert (a + [sep] + b)[|a|] == sep;
  }

  /** Splitting undoes joining when no field contains the separator. */
  lemma {:induction false} SplitJoin(xs: seq<string>, sep: char)
    requires |xs| >= 1
    requires forall i :: 0 <= i < |xs| ==> sep !in xs[i]
    ensures SplitAll(JoinWith(xs, sep), sep) == xs
    decreases |xs|
  {
    if |xs| == 1 {
      SplitWithoutSeparator(xs[0], sep);
    } else {
      SplitJoin(xs[1..], sep);
      SplitAfterField(xs[0], sep, JoinWith(xs[1..], sep));
      assert xs == [xs[0]] + xs[1..];
    }
  }

  // ---------------------------------------------------------------------------------------------
  // Searching

  /** Java's `s.indexOf(c)`: the first position of `c`, or -1. */
  function IndexOf(s: string, c: char): (r: int)
    ensures -1 <= r < |s|
    ensures r == -1 <==> c !in s
    ensures r >= 0 ==> s[r] == c && c !in s[..r]
    decreases |s|
  {
    if s == [] then -1
    else if s[0] == c then 0
    else
      var k := IndexOf(s[1..], c);
      assert s == [s[0]] + s[1..];
      if k == -1 then -1
      else
        assert s[..k + 1] == [s[0]] + s[1..][..k];
        k + 1
  }

  /** Java's `s.lastIndexOf(c)`: the last position of `c`, or -1. */
  function LastIndexOf(s: string, c: char): (r: int)
    ensures -1 <= r < |s|
    ensures r == -1 <==> c !in s
    ensures r >= 0 ==> s[r] == c && c !in s[r + 1..]
    decreases |s|
  {
    if s == [] then -1
    else if s[|s| - 1] == c then |s| - 1
    else
      var k := LastIndexOf(s[..|s| - 1], c);
      assert s == s[..|s| - 1] + [s[|s| - 1]];
      if k >= 0 then
        assert s[k + 1..] == s[..|s| - 1][k + 1..] + [s[|s| - 1]];
        k
      else k
  }

  /**
   * Java's `s.split(sep, 2)` read as a key and a value: the text before the
   * first `sep` and everything after it; `None` when the value would be
   * missing (no separator at all).
   */
  function SplitOnce(s: string, sep: char): (r: Option<(string, string)>)
    ensures r.None? <==> sep !in s
    ensures r.Some? ==> s == r.value.0 + [sep] + r.value.1 && sep !in r.value.0
  {
    var i := IndexOf(s, sep);
    if i == -1 then None
    else
      assert s == s[..i] + [sep] + s[i + 1..];
      Some((s[..i], s[i + 1..]))
  }

  // ---------------------------------------------------------------------------------------------
  // Whitespace trimming and tokenizing

  /** Java's `String.trim`: strips leading and trailing characters up to U+0020. */
  function Trim(s: string): (r: string)
    ensures |r| <= |s|
    ensures r != "" ==> r[0] > ' ' && r[|r| - 1] > ' '
    ensures forall c :: c in s && c > ' ' ==> c in r
    decreases |s|
  {
    if s == [] then s
    else if s[0] <= ' ' then Trim(s[1..])
    else if s[|s| - 1] <= ' ' then Trim(s[..|s| - 1])
    else s
  }

  /** The input with characters up to U+0020 stripped off both ends and nothing else changed. */
  predicate StrippedSlice(s: string, r: string, i: int, j: int) {
    && 0 <= i <= j <= |s| && r == s[i..j]
    && (forall k :: 0 <= k < i ==> s[k] <= ' ')
    && (forall k :: j <= k < |s| ==> s[k] <= ' ')
  }

  /** A stripped slice of the input without its first character, which is at most U+0020. */
  lemma StrippedFront(s: string, r: string, i: int, j: int)
    requires s != [] && s[0] <= ' ' && StrippedSlice(s[1..], r, i, j)
    ensures StrippedSlice(s, r, i + 1, j + 1)
  {
    var t := s[1..];
    assert t[i..j] == s[i + 1..j + 1];
    forall k | 0 <= k < i + 1
      ensures s[k] <= ' '
    {
      if k > 0 {
        assert s[k] == t[k - 1];
      }
    }
    forall k | j + 1 <= k < |s|
      ensures s[k] <= ' '
    {
      assert s[k] == t[k - 1];
    }
  }

  /** A stripped slice of the input without its last character, which is at most U+0020. */
  lemma StrippedBack(s: string, r: string, i: int, j: int)
    requires s != [] && s[|s| - 1] <= ' ' && StrippedSlice(s[..|s| - 1], r, i, j)
    ensures StrippedSlice(s, r, i, j)
  {
    var t := s[..|s| - 1];
    assert t[i..j] == s[i..j];
    forall k | 0 <= k < i
      ensures s[k] <= ' '
    {
      assert s[k] == t[k];
    }
    forall k | j <= k < |s|
      ensures s[k] <= ' '
    {
      if k < |s| - 1 {
        assert s[k] == t[k];
      }
    }
  }

  /** `trim` returns one contiguous piece of its input: only leading and trailing characters up to U+0020 go. */
  lemma {:induction false} TrimIsStrippedSlice(s: string)
    ensures exists i, j :: StrippedSlice(s, Trim(s), i, j)
    decreases |s|
  {
    if s == [] {
      assert StrippedSlice(s, Trim(s), 0, 0);
    } else if s[0] <= ' ' {
      TrimIsStrippedSlice(s[1..]);
      var i, j :| StrippedSlice(s[1..], Trim(s[1..]), i, j);
      StrippedFront(s, Trim(s[1..]), i, j);
      assert Trim(s) == Trim(s[1..]);
      assert StrippedSlice(s, Trim(s), i + 1, j + 1);
    } else if s[|s| - 1] <= ' ' {
      TrimIsStrippedSlice(s[..|s| - 1]);
      var i, j :| StrippedSlice(s[..|s| - 1], Trim(s[..|s| - 1]), i, j);
      StrippedBack(s, Trim(s[..|s| - 1]), i, j);
      assert Trim(s) == Trim(s[..|s| - 1]);
      assert StrippedSlice(s, Trim(s), i, j);
    } else {
      assert StrippedSlice(s, Trim(s), 0, |s|);
    }
  }

  predicate IsListDelimiter(c: char) {
    c == ',' || c == ' '
  }

  /**
   * The tokens `StringTokenizer(s, ", ")` yields after the characters in `pending`:
   * maximal runs of characters other than ',' and ' '.
   */
  function TokensFrom(s: string, pending: string): (r: seq<string>)
    decreases |s|
  {
    if s == [] then (if pending == "" then [] else [pending])
    else if IsListDelimiter(s[0]) then (if pending == "" then [] else [pending]) + TokensFrom(s[1..], "")
    else TokensFrom(s[1..], pending + [s[0]])
  }

  function Tokens(s: string): seq<string> {
    TokensFrom(s, "")
  }

  /** A token is never empty and never holds a delimiter. */
  lemma {:induction false} TokensWellFormed(s: string, pending: string)
    requires forall c :: c in pending ==> !IsListDelimiter(c)
    ensures forall i :: 0 <= i < |TokensFrom(s, pending)| ==>
              TokensFrom(s, pending)[i] != "" && forall c :: c in TokensFrom(s, pending)[i] ==> !IsListDelimiter(c)
    decreases |s|
  {
    if s != [] {
      if IsListDelimiter(s[0]) {
        TokensWellFormed(s[1..], "");
      } else {
        TokensWellFormed(s[1..], pending + [s[0]]);
      }
    }
  }

  lemma {:induction false} TokensOfField(a: string, pending: string, rest: string)
    requires forall c :: c in a ==> !IsListDelimiter(c)
    ensures TokensFrom(a + rest, pending) == TokensFrom(rest, pending + a)
    decreases |a|
  {
    if a == [] {
      assert a + rest == rest;
      assert pending + a == pending;
    } else {
      assert (a + rest)[1..] == a[1..] + rest;
      TokensOfField(a[1..], pending + [a[0]], rest);
      assert pending + [a[0]] + a[1..] == pending + a;
    }
  }

  /** Tokenizing a comma-joined list of non-empty, delimiter-free items gives back the items. */
  lemma {:induction false} TokensOfJoin(xs: seq<string>)
    requires forall i :: 0 <= i < |xs| ==> xs[i] != "" && forall c :: c in xs[i] ==> !IsListDelimiter(c)
    ensures Tokens(JoinWith(xs, ',')) == xs
    decreases |xs|
  {
    if |xs| == 1 {
      TokensOfField(xs[0], "", "");
      assert xs[0] + "" == xs[0];
      assert "" + xs[0] == xs[0];
    } else if |xs| > 1 {
      var tail := JoinWith(xs[1..], ',');
      TokensOfJoin(xs[1..]);
      TokensOfField(xs[0], "", [','] + tail);
      assert xs[0] + [','] + tail == xs[0] + ([','] + tail);
      assert "" + xs[0] == xs[0];
      assert ([','] + tail)[1..] == tail;
      assert xs == [xs[0]] + xs[1..];
    }
  }

  // ---------------------------------------------------------------------------------------------
  // Decimal numbers

  predicate IsDigit(c: char) {
    '0' <= c <= '9'
  }

  predicate AllDigits(s: string) {
    |s| >= 1 && forall i :: 0 <= i < |s| ==> IsDigit(s[i])
  }

  function DigitsValue(s: string): nat
    requires forall i :: 0 <= i < |s| ==> IsDigit(s[i])
    decreases |s|
  {
    if s == [] then 0
    else
      assert IsDigit(s[|s| - 1]);
      10 * DigitsValue(s[..|s| - 1]) + (s[|s| - 1] as int - '0' as int)
  }

  /** The decimal digits of `n`, without leading zeros. */
  function Digits(n: nat): (r: string)
    ensures AllDigits(r)
    decreases n
  {
    if n < 10 then [('0' as int + n) as char] else Digits(n / 10) + [('0' as int + n % 10) as char]
  }

  lemma {:induction false} DigitsValueOfDigits(n: nat)
    ensures DigitsValue(Digits(n)) == n
    decreases n
  {
    if n >= 10 {
      DigitsValueOfDigits(n / 10);
      var d := Digits(n);
      assert d[..|d| - 1] == Digits(n / 10);
    }
  }

  /** The length of the optional leading sign of a number. */
  function SignLength(s: string): nat {
    if |s| > 0 && (s[0] == '-' || s[0] == '+') then 1 else 0
  }

  /** An optional '-' or '+' followed by one or more ASCII digits. */
  predicate IntegerText(s: string) {
    SignLength(s) < |s| && forall i :: SignLength(s) <= i < |s| ==> IsDigit(s[i])
  }

  /** The value such a text denotes: its digits, negated after a '-'. */
  function SignedValue(s: string): int
    requires IntegerText(s)
  {
    var magnitude := DigitsValue(s[SignLength(s)..]);
    if s[0] == '-' then 0 - magnitude else magnitude
  }

  /**
   * Java's `Integer.parseInt` (lo, hi = the int range) and `Long.parseLong`
   * (the long range): an optional sign followed by at least one ASCII digit,
   * with a value inside [lo, hi]; anything else is a NumberFormatException (None).
   */
  function ParseInteger(s: string, lo: int, hi: int): (r: Option<int>)
    ensures r.Some? ==> lo <= r.value <= hi
    ensures s == "" || s == "-" || s == "+" ==> r.None?
    ensures r.Some? <==> IntegerText(s) && lo <= SignedValue(s) <= hi
    ensures r.Some? ==> r.value == SignedValue(s)
  {
    var v: Option<int> :=
      if |s| >= 2 && (s[0] == '-' || s[0] == '+') && AllDigits(s[1..]) then
        Some(if s[0] == '-' then 0 - DigitsValue(s[1..]) as int else DigitsValue(s[1..]))
      else if AllDigits(s) then Some(DigitsValue(s))
      else None;
    if v.Some? && lo <= v.value <= hi then v else None
  }

  /** Java's `Integer.toString` / `Long.toString`. */
  function IntegerToString(n: int): string {
    if n < 0 then "-" + Digits(-n) else Digits(n)
  }

  /** Parsing undoes printing for every value in range. */
  lemma ParsePrinted(n: int, lo: int, hi: int)
    requires lo <= n <= hi
    ensures ParseInteger(IntegerToString(n), lo, hi) == Some(n)
  {
    if n < 0 {
      DigitsValueOfDigits(-n);
      assert IntegerToString(n)[1..] == Digits(-n);
    } else {
      DigitsValueOfDigits(n);
      assert IsDigit(IntegerToString(n)[0]);
    }
  }

  const INT_MIN: int := -0x8000_0000
  const INT_MAX: int := 0x7FFF_FFFF
  const LONG_MIN: int := -0x8000_0000_0000_0000
  const LONG_MAX: int := 0x7FFF_FFFF_FFFF_FFFF

  // ---------------------------------------------------------------------------------------------
  // URI escapes

  predicate IsHexDigit(c: char) {
    '0' <= c <= '9' || 'A' <= c <= 'F' || 'a' <= c <= 'f'
  }

  /** The digit value `decode` computes: upper-case the character, subtract 55 above '@', else 48. */
  function HexValue(c: char): (r: nat)
    requires IsHexDigit(c)
    ensures r < 16
  {
    var u := if 'a' <= c <= 'f' then c as int - 32 else c as int;
    u - (if u > 64 then 55 else 48)
  }

  function HexDigitChar(v: nat): (c: char)
    requires v < 16
    ensures IsHexDigit(c) && HexValue(c) == v
  {
    if v < 10 then ('0' as int + v) as char else ('A' as int + v - 10) as char
  }

  /** The result of `decode`: each `%HH` becomes the character 16*H+H, everything else is copied. */
  function Decoded(s: string): (r: string)
    decreases |s|
  {
    if |s| >= 3 && s[0] == '%' && IsHexDigit(s[1]) && IsHexDigit(s[2]) then
      [(16 * HexValue(s[1]) + HexValue(s[2])) as char] + Decoded(s[3..])
    else if s == [] then []
    else [s[0]] + Decoded(s[1..])
  }

  /** Escapes every character (all below U+0100) as `%HH`. */
  function PercentEncoded(s: string): (r: string)
    requires forall i :: 0 <= i < |s| ==> s[i] as int < 256
    ensures |r| == 3 * |s|
    decreases |s|
  {
    if s == [] then []
    else ['%', HexDigitChar(s[0] as int / 16), HexDigitChar(s[0] as int % 16)] + PercentEncoded(s[1..])
  }

  /** Text without '%' passes through `decode` unchanged. */
  lemma {:induction false} DecodedWithoutEscapes(s: string)
    requires '%' !in s
    ensures Decoded(s) == s
    decreases |s|
  {
    if s != [] {
      DecodedWithoutEscapes(s[1..]);
      assert s == [s[0]] + s[1..];
    }
  }

  /** `decode` inverts percent-encoding. */
  lemma {:induction false} DecodedPercentEncoded(s: string)
    requires forall i :: 0 <= i < |s| ==> s[i] as int < 256
    ensures Decoded(PercentEncoded(s)) == s
    decreases |s|
  {
    if s != [] {
      var e := PercentEncoded(s);
      DecodedPercentEncoded(s[1..]);
      assert e[3..] == PercentEncoded(s[1..]);
      assert (16 * (s[0] as int / 16) + s[0] as int % 16) as char == s[0];
      assert s == [s[0]] + s[1..];
    }
  }
}
