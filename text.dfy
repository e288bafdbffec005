/**
 * String helpers the source gets from Rust's standard library: ASCII
 * lowercasing (`str::to_lowercase`), decimal printing (`Display` for
 * integers), `usize::from_str`, `join` and the lexicographic order on
 * `String`.
 */
module Text {
  import opened Wrappers
  import opened Prim

  // ---------------------------------------------------------------------
  // Lowercasing

  function LowerChar(c: char): char {
    if 'A' <= c <= 'Z' then (c as int - 'A' as int + 'a' as int) as char else c
  }

  /** `str::to_lowercase`, restricted to ASCII letters. */
  function Lower(s: string): (r: string)
    ensures |r| == |s|
    ensures forall i :: 0 <= i < |s| ==> r[i] == LowerChar(s[i])
  {
    seq(|s|, i requires 0 <= i < |s| => LowerChar(s[i]))
  }

  predicate IsLower(s: string) {
    forall i :: 0 <= i < |s| ==> !('A' <= s[i] <= 'Z')
  }

  lemma LowerIsLower(s: string)
    ensures IsLower(Lower(s))
  {
  }

  lemma LowerOfLower(s: string)
    requires IsLower(s)
    ensures Lower(s) == s
  {
  }

  lemma LowerIdempotent(s: string)
    ensures Lower(Lower(s)) == Lower(s)
  {
    LowerIsLower(s);
    LowerOfLower(Lower(s));
  }

  // ---------------------------------------------------------------------
  // Decimal digits

  predicate IsDigit(c: char) {
    '0' <= c <= '9'
  }

  predicate AllDigits(s: string) {
    forall i :: 0 <= i < |s| ==> IsDigit(s[i])
  }

  function DigitChar(d: nat): (c: char)
    requires d < 10
    ensures IsDigit(c)
  {
    ('0' as int + d) as char
  }

  function DigitValue(c: char): (d: nat)
    requires IsDigit(c)
    ensures d < 10
  {
    c as int - '0' as int
  }

  /** The decimal rendering of a natural number, as Rust's `Display` prints it. */
  function NatToDecimal(n: nat): (r: string)
    ensures |r| >= 1
    ensures AllDigits(r)
    ensures n < 10 <==> |r| == 1
  {
    if n < 10 then [DigitChar(n)] else NatToDecimal(n / 10) + [DigitChar(n % 10)]
  }

  /** The number of characters in the decimal rendering of `n`. */
  function DecimalWidth(n: nat): (w: nat)
    ensures w >= 1
  {
    |NatToDecimal(n)|
  }

  /** Rendering of a signed integer: a leading '-' for negative values. */
  function IntToDecimal(v: int): (r: string)
    ensures |r| >= 1
  {
    if v < 0 then "-" + NatToDecimal(-v) else NatToDecimal(v)
  }

  /** Left-to-right decimal accumulation, as a digit-by-digit parser computes it. */
  function Accumulate(s: string, acc: nat): nat
    requires AllDigits(s)
  {
    if s == [] then acc else Accumulate(s[1..], acc * 10 + DigitValue(s[0]))
  }

  lemma {:induction false} AccumulateSnoc(s: string, c: char, acc: nat)
    requires AllDigits(s) && IsDigit(c)
    ensures AllDigits(s + [c])
    ensures Accumulate(s + [c], acc) == Accumulate(s, acc) * 10 + DigitValue(c)
  {
    if s != [] {
      assert (s + [c])[1..] == s[1..] + [c];
      AccumulateSnoc(s[1..], c, acc * 10 + DigitValue(s[0]));
    }
  }

  lemma {:induction false} AccumulateGrows(s: string, acc: nat)
    requires AllDigits(s)
    ensures acc <= Accumulate(s, acc)
  {
    if s != [] {
      AccumulateGrows(s[1..], acc * 10 + DigitValue(s[0]));
    }
  }

  lemma {:induction false} AccumulateDecimal(n: nat)
    ensures Accumulate(NatToDecimal(n), 0) == n
  {
    if n >= 10 {
      AccumulateDecimal(n / 10);
      AccumulateSnoc(NatToDecimal(n / 10), DigitChar(n % 10), 0);
    }
  }

  // ---------------------------------------------------------------------
  // usize::from_str

  /** The kinds of `std::num::ParseIntError` an unsigned parse can produce. */
  datatype IntErrorKind = Empty | InvalidDigit | PosOverflow

  /**
   * The digit loop of `usize::from_str`: left to right, a non-digit is an
   * `InvalidDigit`, and an accumulator that would pass `usize::MAX` is a
   * `PosOverflow`; whichever comes first wins.
   */
  function ParseDigits(s: string, acc: usize): Result<usize, IntErrorKind> {
    if s == [] then Ok(acc)
    else if !IsDigit(s[0]) then Err(InvalidDigit)
    else if acc * 10 + DigitValue(s[0]) > USIZE_MAX then Err(PosOverflow)
    else ParseDigits(s[1..], acc * 10 + DigitValue(s[0]))
  }

  /**
   * `usize::from_str`: the empty string is `Empty`; a lone sign is
   * `InvalidDigit`; one leading '+' is skipped; '-' is not a digit.
   */
  function ParseUsize(s: string): Result<usize, IntErrorKind> {
    if s == [] then Err(Empty)
    else if (s[0] == '+' || s[0] == '-') && |s| == 1 then Err(InvalidDigit)
    else if s[0] == '+' then ParseDigits(s[1..], 0)
    else ParseDigits(s, 0)
  }

  lemma {:induction false} ParseDigitsAccumulate(s: string, acc: usize)
    requires AllDigits(s) && Accumulate(s, acc) <= USIZE_MAX
    ensures ParseDigits(s, acc) == Ok(Accumulate(s, acc))
  {
    if s != [] {
      var next := acc * 10 + DigitValue(s[0]);
      AccumulateGrows(s[1..], next);
      ParseDigitsAccumulate(s[1..], next);
    }
  }

  /** Parsing a printed `usize` gives it back. */
  lemma ParseUsizeDecimal(n: usize)
    ensures ParseUsize(NatToDecimal(n)) == Ok(n)
  {
    var s := NatToDecimal(n);
    AccumulateDecimal(n);
    assert IsDigit(s[0]);
    ParseDigitsAccumulate(s, 0);
  }

  /** A successful parse reads only digits after an optional '+'. */
  lemma {:induction false} ParseDigitsOk(s: string, acc: usize)
    requires ParseDigits(s, acc).Ok?
    ensures AllDigits(s)
    ensures ParseDigits(s, acc).value == Accumulate(s, acc)
  {
    if s != [] {
      ParseDigitsOk(s[1..], acc * 10 + DigitValue(s[0]));
    }
  }

  // ---------------------------------------------------------------------
  // join / split

  /** `[String]::join(sep)`. */
  function Join(parts: seq<string>, sep: char): string {
    if |parts| == 0 then ""
    else if |parts| == 1 then parts[0]
    else parts[0] + [sep] + Join(parts[1..], sep)
  }

  /** `str::split(sep)`: every separator ends one piece; there is always one piece. */
  function Split(s: string, sep: char): (r: seq<string>)
    ensures |r| >= 1
  {
    if |s| == 0 then [""]
    else
      var rest := Split(s[1..], sep);
      if s[0] == sep then [""] + rest else [[s[0]] + rest[0]] + rest[1..]
  }

  lemma {:induction false} SplitNoSep(a: string, sep: char)
    requires sep !in a
    ensures Split(a, sep) == [a]
  {
    if |a| > 0 {
      SplitNoSep(a[1..], sep);
      assert [a[0]] + a[1..] == a;
    }
  }

  lemma {:induction false} SplitAtSep(a: string, b: string, sep: char)
    requires sep !in a
    ensures Split(a + [sep] + b, sep) == [a] + Split(b, sep)
  {
    if |a| == 0 {
      assert a + [sep] + b == [sep] + b;
      assert ([sep] + b)[1..] == b;
    } else {
      var s := a + [sep] + b;
      assert s[1..] == a[1..] + [sep] + b;
      SplitAtSep(a[1..], b, sep);
      assert [a[0]] + a[1..] == a;
    }
  }

  /** Splitting a join recovers the parts when no part holds the separator. */
  lemma {:induction false} SplitJoin(parts: seq<string>, sep: char)
    requires |parts| >= 1
    requires forall i :: 0 <= i < |parts| ==> sep !in parts[i]
    ensures Split(Join(parts, sep), sep) == parts
  {
    if |parts| == 1 {
      SplitNoSep(parts[0], sep);
    } else {
      SplitJoin(parts[1..], sep);
      SplitAtSep(parts[0], Join(parts[1..], sep), sep);
      assert [parts[0]] + parts[1..] == parts;
    }
  }

  /**
   * Splitting a join followed by a separator and more text gives the parts
   * (one empty piece for no parts), then the pieces of the rest.
   */
  lemma SplitJoinThen(parts: seq<string>, rest: string, sep: char)
    requires forall i :: 0 <= i < |parts| ==> sep !in parts[i]
    ensures Split(Join(parts, sep) + [sep] + rest, sep) == (if parts == [] then [""] else parts) + Split(rest, sep)
  {
    if parts == [] {
      SplitAtSep("", rest, sep);
    } else {
      SplitNonEmptyJoinThen(parts, rest, sep);
    }
  }

  lemma {:induction false} SplitNonEmptyJoinThen(parts: seq<string>, rest: string, sep: char)
    requires |parts| >= 1
    requires forall i :: 0 <= i < |parts| ==> sep !in parts[i]
    ensures Split(Join(parts, sep) + [sep] + rest, sep) == parts + Split(rest, sep)
  {
    if |parts| == 1 {
      SplitAtSep(parts[0], rest, sep);
    } else {
      var tail := Join(parts[1..], sep);
      assert Join(parts, sep) == parts[0] + [sep] + tail;
      assert Join(parts, sep) + [sep] + rest == parts[0] + [sep] + (tail + [sep] + rest);
      SplitAtSep(parts[0], tail + [sep] + rest, sep);
      assert forall i :: 0 <= i < |parts| - 1 ==> parts[1..][i] == parts[i + 1];
      SplitNonEmptyJoinThen(parts[1..], rest, sep);
      assert [parts[0]] + parts[1..] == parts;
    }
  }

  /** Each part followed by the separator, as a writer of lines writes them. */
  function Terminated(parts: seq<string>, sep: char): string {
    if parts == [] then "" else parts[0] + [sep] + Terminated(parts[1..], sep)
  }

  lemma {:induction false} TerminatedAppend(a: seq<string>, b: seq<string>, sep: char)
    ensures Terminated(a + b, sep) == Terminated(a, sep) + Terminated(b, sep)
  {
    if a == [] {
      assert a + b == b;
    } else {
      assert (a + b)[1..] == a[1..] + b;
      TerminatedAppend(a[1..], b, sep);
    }
  }

  /** One more part: its text and the separator follow the parts before it, after any text `w`. */
  lemma TerminatedSnoc(w: string, parts: seq<string>, i: nat, sep: char)
    requires i < |parts|
    ensures w + Terminated(parts[..i + 1], sep) == w + Terminated(parts[..i], sep) + parts[i] + [sep]
  {
    assert parts[..i + 1] == parts[..i] + [parts[i]];
    TerminatedAppend(parts[..i], [parts[i]], sep);
    assert [parts[i]][1..] == [];
  }

  /** Splitting terminated parts recovers them, then one empty piece, when no part holds the separator. */
  lemma {:induction false} SplitTerminated(parts: seq<string>, sep: char)
    requires forall i :: 0 <= i < |parts| ==> sep !in parts[i]
    ensures Split(Terminated(parts, sep), sep) == parts + [""]
  {
    if parts != [] {
      assert forall i :: 0 <= i < |parts| - 1 ==> parts[1..][i] == parts[i + 1];
      SplitAtSep(parts[0], Terminated(parts[1..], sep), sep);
      SplitTerminated(parts[1..], sep);
      assert [parts[0]] + (parts[1..] + [""]) == parts + [""];
    }
  }

  /** A character in no part and not the separator is not in the join. */
  lemma {:induction false} NotInJoin(parts: seq<string>, sep: char, c: char)
    requires c != sep
    requires forall i :: 0 <= i < |parts| ==> c !in parts[i]
    ensures c !in Join(parts, sep)
  {
    if |parts| > 1 {
      NotInJoin(parts[1..], sep, c);
    }
  }

  /** Decimal renderings hold digits only. */
  lemma DecimalHasNo(n: nat, c: char)
    requires !IsDigit(c)
    ensures c !in NatToDecimal(n)
  {
  }

  // ---------------------------------------------------------------------
  // The order on String (lexicographic by character)

  predicate StrLt(a: string, b: string) {
    if |a| == 0 then |b| > 0
    else if |b| == 0 then false
    else if a[0] == b[0] then StrLt(a[1..], b[1..])
    else a[0] < b[0]
  }

  lemma {:induction false} StrLtIrreflexive(a: string)
    ensures !StrLt(a, a)
  {
    if |a| > 0 {
      StrLtIrreflexive(a[1..]);
    }
  }

  lemma {:induction false} StrLtTransitive(a: string, b: string, c: string)
    requires StrLt(a, b) && StrLt(b, c)
    ensures StrLt(a, c)
  {
    if |a| > 0 && a[0] == b[0] && b[0] == c[0] {
      StrLtTransitive(a[1..], b[1..], c[1..]);
    }
  }

  lemma {:induction false} StrLtTotal(a: string, b: string)
    requires a != b
    ensures StrLt(a, b) || StrLt(b, a)
  {
    if |a| > 0 && |b| > 0 && a[0] == b[0] {
      assert a == [a[0]] + a[1..] && b == [b[0]] + b[1..];
      StrLtTotal(a[1..], b[1..]);
    }
  }

  lemma StrLtAsymmetric(a: string, b: string)
    requires StrLt(a, b)
    ensures !StrLt(b, a)
  {
    if StrLt(b, a) {
      StrLtTransitive(a, b, a);
      StrLtIrreflexive(a);
    }
  }
}
