/**
 * The behaviour of the Rust standard-library string operations that the
 * client, the scraper and the download command rely on: `str::trim`,
 * `str::split(char)`, `str::strip_prefix`, `str::len` (a UTF-8 byte count),
 * `u64::from_str`/`u32::from_str` and `u64::to_string`.
 *
 * Strings are sequences of Unicode scalar values, as Rust's `char`s are.
 */
module Text {
  import opened Wrappers

  const U32_MAX: nat := 0xFFFF_FFFF
  const U64_MAX: nat := 0xFFFF_FFFF_FFFF_FFFF

  /** Rust's fixed-width integers, as the ranges they cover. */
  type U8 = n: int | 0 <= n <= 0xFF
  type U32 = n: int | 0 <= n <= U32_MAX
  type U64 = n: int | 0 <= n <= U64_MAX
  type I32 = n: int | -0x8000_0000 <= n <= 0x7FFF_FFFF

  // ---------------------------------------------------------------- trim

  /** `char::is_whitespace`: the characters with the Unicode White_Space property. */
  predicate IsWhitespace(c: char) {
    || ('\t' <= c <= '\r')
    || c == ' '
    || c == '\U{0085}'
    || c == '\U{00A0}'
    || c == '\U{1680}'
    || ('\U{2000}' <= c <= '\U{200A}')
    || c == '\U{2028}'
    || c == '\U{2029}'
    || c == '\U{202F}'
    || c == '\U{205F}'
    || c == '\U{3000}'
  }

  predicate AllWhitespace(s: string) {
    forall k :: 0 <= k < |s| ==> IsWhitespace(s[k])
  }

  /** `str::trim_start`: the suffix of `s` left after its leading whitespace. */
  function TrimStart(s: string): (r: string)
    ensures |r| <= |s|
    ensures r == s[|s| - |r|..]
    ensures AllWhitespace(s[..|s| - |r|])
    ensures r == [] || !IsWhitespace(r[0])
  {
    if s != [] && IsWhitespace(s[0]) then TrimStart(s[1..]) else s
  }

  /** `str::trim_end`: the prefix of `s` left after its trailing whitespace. */
  function TrimEnd(s: string): (r: string)
    ensures |r| <= |s|
    ensures r == s[..|r|]
    ensures AllWhitespace(s[|r|..])
    ensures r == [] || !IsWhitespace(r[|r| - 1])
  {
    if s != [] && IsWhitespace(s[|s| - 1]) then
      var r := TrimEnd(s[..|s| - 1]);
      assert forall k :: |r| <= k < |s| - 1 ==> s[k] == s[..|s| - 1][k];
      r
    else s
  }

  /** `r` is a slice of `s` with nothing but whitespace before and after it. */
  ghost predicate WhitespaceAround(s: string, r: string) {
    exists i ::
      && 0 <= i <= |s| - |r| && r == s[i..i + |r|]
      && AllWhitespace(s[..i]) && AllWhitespace(s[i + |r|..])
  }

  /** `str::trim`: `s` without its leading and trailing whitespace. */
  function Trim(s: string): (r: string)
    ensures |r| <= |s|
    ensures WhitespaceAround(s, r)
    ensures r == [] || (!IsWhitespace(r[0]) && !IsWhitespace(r[|r| - 1]))
    ensures r == [] <==> AllWhitespace(s)
  {
    var t := TrimStart(s);
    var r := TrimEnd(t);
    TrimmedSlice(s, t, r);
    r
  }

  /**
   * Cutting leading whitespace off `s` (leaving `t`), then trailing
   * whitespace off `t` (leaving `r`), removes only whitespace around `r`,
   * leaves none at either end of it, and leaves nothing only when `s` is
   * all whitespace.
   */
  lemma TrimmedSlice(s: string, t: string, r: string)
    requires |t| <= |s| && t == s[|s| - |t|..] && AllWhitespace(s[..|s| - |t|])
    requires t == [] || !IsWhitespace(t[0])
    requires |r| <= |t| && r == t[..|r|] && AllWhitespace(t[|r|..])
    requires r == [] || !IsWhitespace(r[|r| - 1])
    ensures WhitespaceAround(s, r)
    ensures r == [] || (!IsWhitespace(r[0]) && !IsWhitespace(r[|r| - 1]))
    ensures r == [] <==> AllWhitespace(s)
  {
    var i := |s| - |t|;
    assert s[i + |r|..] == t[|r|..];
    assert r == s[i..i + |r|];
    if r == [] {
      assert t[|r|..] == t;
      assert s == s[..i] + t;
    } else {
      assert r[0] == t[0];
    }
  }

  /** Trimming twice is trimming once. */
  lemma TrimIdempotent(s: string)
    ensures Trim(Trim(s)) == Trim(s)
  {
    var r := Trim(s);
    if r != [] {
      assert TrimStart(r) == r;
      assert TrimEnd(r) == r;
    }
  }

  // ---------------------------------------------------------------- split

  /** Glues pieces back together with `sep` between neighbours: the inverse of `Split`. */
  function Join(pieces: seq<string>, sep: char): string
    requires |pieces| >= 1
  {
    if |pieces| == 1 then pieces[0] else pieces[0] + [sep] + Join(pieces[1..], sep)
  }

  /**
   * `str::split(char)` collected into a sequence: always at least one piece,
   * no piece holds the separator, and joining the pieces gives `s` back.
   */
  function Split(s: string, sep: char): (r: seq<string>)
    ensures |r| >= 1
    ensures forall i :: 0 <= i < |r| ==> sep !in r[i]
    ensures Join(r, sep) == s
  {
    if s == [] then [[]]
    else
      var rest := Split(s[1..], sep);
      if s[0] == sep then
        [[]] + rest
      else
        var r := [[s[0]] + rest[0]] + rest[1..];
        assert s == [s[0]] + s[1..];
        assert |rest| > 1 ==> rest == [rest[0]] + rest[1..];
        r
  }

  /** Splitting a piece that holds no separator after which one follows. */
  lemma {:induction false} SplitPieceThenSep(p: string, sep: char, t: string)
    requires sep !in p
    ensures Split(p + [sep] + t, sep) == [p] + Split(t, sep)
    decreases |p|
  {
    if p == [] {
      assert p + [sep] + t == [sep] + t;
      assert ([sep] + t)[1..] == t;
    } else {
      SplitPieceThenSep(p[1..], sep, t);
      assert (p + [sep] + t)[1..] == p[1..] + [sep] + t;
      assert [p[0]] + p[1..] == p;
    }
  }

  /** A string without the separator splits into itself alone. */
  lemma {:induction false} SplitNoSep(p: string, sep: char)
    requires sep !in p
    ensures Split(p, sep) == [p]
    decreases |p|
  {
    if p != [] {
      SplitNoSep(p[1..], sep);
      assert [p[0]] + p[1..] == p;
    }
  }

  /** `Split` undoes `Join` whenever no piece holds the separator. */
  lemma {:induction false} SplitJoin(pieces: seq<string>, sep: char)
    requires |pieces| >= 1
    requires forall i :: 0 <= i < |pieces| ==> sep !in pieces[i]
    ensures Split(Join(pieces, sep), sep) == pieces
    decreases |pieces|
  {
    if |pieces| == 1 {
      SplitNoSep(pieces[0], sep);
    } else {
      SplitPieceThenSep(pieces[0], sep, Join(pieces[1..], sep));
      SplitJoin(pieces[1..], sep);
      assert [pieces[0]] + pieces[1..] == pieces;
    }
  }

  /** There is one piece more than there are separators in `s`. */
  lemma {:induction false} SplitCount(s: string, sep: char)
    ensures |Split(s, sep)| == multiset(s)[sep] + 1
    decreases |s|
  {
    if s != [] {
      SplitCount(s[1..], sep);
      assert s == [s[0]] + s[1..];
    }
  }

  /** `s` splits into two pieces or more exactly when it holds the separator. */
  lemma SplitMany(s: string, sep: char)
    ensures |Split(s, sep)| >= 2 <==> sep in s
  {
    SplitCount(s, sep);
    assert sep in s <==> sep in multiset(s);
  }

  /** Joining with the last piece split off. */
  lemma {:induction false} JoinLast(pieces: seq<string>, sep: char)
    requires |pieces| >= 2
    ensures Join(pieces, sep) == Join(pieces[..|pieces| - 1], sep) + [sep] + pieces[|pieces| - 1]
    decreases |pieces|
  {
    if |pieces| > 2 {
      JoinLast(pieces[1..], sep);
      assert pieces[1..][..|pieces| - 2] == pieces[..|pieces| - 1][1..];
    }
  }

  /** The first piece is the text before the first separator, or all of `s`. */
  function FirstSegment(s: string, sep: char): (r: string)
    ensures sep !in r
    ensures |r| <= |s| && r == s[..|r|]
    ensures |r| < |s| ==> s[|r|] == sep
    ensures sep !in s ==> r == s
  {
    var pieces := Split(s, sep);
    SplitMany(s, sep);
    pieces[0]
  }

  /** `split(sep).nth(1)`: the text between the first and the second separator. */
  function SecondSegment(s: string, sep: char): (r: Option<string>)
    ensures r.Some? <==> sep in s
    ensures r.Some? ==> sep !in r.value
    ensures r.Some? ==> exists k :: 0 <= k < |s| && s[k] == sep && s[..k] == FirstSegment(s, sep) && r.value == FirstSegment(s[k + 1..], sep)
  {
    var pieces := Split(s, sep);
    SplitMany(s, sep);
    if |pieces| >= 2 then
      var k := |pieces[0]|;
      assert s == pieces[0] + [sep] + Join(pieces[1..], sep);
      assert s[k + 1..] == Join(pieces[1..], sep);
      assert Split(s[k + 1..], sep) == pieces[1..] by { SplitJoin(pieces[1..], sep); }
      Some(pieces[1])
    else
      None
  }

  /** A separator-free text followed by a separator, or by nothing, is the first piece. */
  lemma FirstSegmentOf(p: string, sep: char, t: string)
    requires sep !in p && (t == [] || t[0] == sep)
    ensures FirstSegment(p + t, sep) == p
  {
    var s := p + t;
    var r := FirstSegment(s, sep);
    if t != [] {
      assert s[|p|] == sep;
    }
    assert forall k :: 0 <= k < |p| ==> s[k] == p[k];
  }

  /** After a separator-free first piece and one separator, `nth(1)` is the first piece of the rest. */
  lemma SecondSegmentOf(p: string, sep: char, t: string)
    requires sep !in p
    ensures SecondSegment(p + [sep] + t, sep) == Some(FirstSegment(t, sep))
  {
    var s := p + [sep] + t;
    FirstSegmentOf(p, sep, [sep] + t);
    assert s == p + ([sep] + t);
    var k :| 0 <= k < |s| && s[k] == sep && s[..k] == FirstSegment(s, sep)
             && SecondSegment(s, sep).value == FirstSegment(s[k + 1..], sep);
    assert k == |p|;
    assert s[k + 1..] == t;
  }

  /** The second space-separated token of "<word> <n><more>" is the decimal spelling of n. */
  lemma SecondTokenDecimal(word: string, n: nat, more: string)
    requires ' ' !in word && (more == [] || more[0] == ' ')
    ensures SecondSegment(word + " " + ToDecimal(n) + more, ' ') == Some(ToDecimal(n))
  {
    var d := ToDecimal(n);
    assert word + " " + d + more == word + [' '] + (d + more);
    SecondSegmentOf(word, ' ', d + more);
    assert ' ' !in d by { assert forall k :: 0 <= k < |d| ==> IsAsciiDigit(d[k]); }
    FirstSegmentOf(d, ' ', more);
  }

  /** A separator-free text, one separator and a separator-free rest split into exactly those two pieces. */
  lemma TwoSegments(p: string, sep: char, t: string)
    requires sep !in p && sep !in t
    ensures FirstSegment(p + [sep] + t, sep) == p
    ensures SecondSegment(p + [sep] + t, sep) == Some(t)
  {
    SecondSegmentOf(p, sep, t);
    FirstSegmentOf(p, sep, [sep] + t);
    assert p + [sep] + t == p + ([sep] + t);
  }

  /**
   * `split(sep).next_back()`: the text after the last separator, or all of
   * `s` when it has none. The iterator always yields a last piece.
   */
  function LastSegment(s: string, sep: char): (r: string)
    ensures sep !in r
    ensures |r| <= |s| && r == s[|s| - |r|..]
    ensures |r| < |s| ==> s[|s| - |r| - 1] == sep
    ensures sep !in s ==> r == s
  {
    var pieces := Split(s, sep);
    SplitMany(s, sep);
    var r := pieces[|pieces| - 1];
    assert |pieces| >= 2 ==> s == Join(pieces[..|pieces| - 1], sep) + [sep] + r by {
      if |pieces| >= 2 { JoinLast(pieces, sep); }
    }
    r
  }

  // ---------------------------------------------------------------- strip_prefix

  /** `str::strip_prefix`: what follows `prefix` in `s`, when `s` starts with it. */
  function StripPrefix(s: string, prefix: string): (r: Option<string>)
    ensures r.Some? <==> prefix <= s
    ensures r.Some? ==> prefix + r.value == s
  {
    if prefix <= s then Some(s[|prefix|..]) else None
  }

  // ---------------------------------------------------------------- len

  predicate IsAscii(c: char) {
    c as int < 0x80
  }

  /** Number of bytes the UTF-8 encoding of `c` takes. */
  function Utf8Width(c: char): (n: nat)
    ensures 1 <= n <= 4
    ensures n == 1 <==> IsAscii(c)
  {
    if c as int < 0x80 then 1
    else if c as int < 0x800 then 2
    else if c as int < 0x1_0000 then 3
    else 4
  }

  /** `str::len`: the length of `s` in UTF-8 bytes, not in characters. */
  function Utf8Len(s: string): (n: nat)
    ensures |s| <= n <= 4 * |s|
    ensures n == |s| <==> forall k :: 0 <= k < |s| ==> IsAscii(s[k])
  {
    if s == [] then 0 else Utf8Width(s[0]) + Utf8Len(s[1..])
  }

  // ---------------------------------------------------------------- parse

  predicate IsAsciiDigit(c: char) {
    '0' <= c <= '9'
  }

  predicate AllDigits(s: string) {
    forall k :: 0 <= k < |s| ==> IsAsciiDigit(s[k])
  }

  function DigitValue(c: char): (d: nat)
    requires IsAsciiDigit(c)
    ensures d < 10
  {
    c as int - '0' as int
  }

  function DigitChar(d: nat): (c: char)
    requires d < 10
    ensures IsAsciiDigit(c) && DigitValue(c) == d
  {
    ('0' as int + d) as char
  }

  /** `core::num::IntErrorKind` as far as unsigned parsing can produce it. */
  datatype IntErrorKind = Empty | InvalidDigit | PosOverflow

  /**
   * The decimal loop of `from_str_radix`: digits are consumed left to right,
   * the first non-digit stops it with InvalidDigit and the first step whose
   * value exceeds `max` stops it with PosOverflow.
   */
  function Accumulate(ds: string, acc: nat, max: nat): (r: Result<nat, IntErrorKind>)
    requires acc <= max
    ensures r.Ok? ==> acc <= r.value <= max
    ensures r != Err(Empty)
    decreases |ds|
  {
    if ds == [] then Ok(acc)
    else if !IsAsciiDigit(ds[0]) then Err(InvalidDigit)
    else
      var next := acc * 10 + DigitValue(ds[0]);
      if next > max then Err(PosOverflow) else Accumulate(ds[1..], next, max)
  }

  /** The text `from_str` reads as digits: `s` without one leading `+`. */
  function DigitPart(s: string): string {
    if s != [] && s[0] == '+' then s[1..] else s
  }

  /**
   * `u64::from_str` (with `max` = U64_MAX) and `u32::from_str` (`max` = U32_MAX):
   * an optional `+`, then one or more ASCII digits whose value is at most `max`.
   * Otherwise the empty string is Empty; a lone sign, or a non-digit reached
   * before the value exceeds `max`, is InvalidDigit; a value that exceeds
   * `max` before any non-digit is PosOverflow.
   */
  function ParseUnsigned(s: string, max: nat): (r: Result<nat, IntErrorKind>)
    ensures r == Err(Empty) <==> s == []
    ensures r.Ok? <==> DigitPart(s) != [] && AllDigits(DigitPart(s)) && Horner(0, DigitPart(s)) <= max
    ensures r.Ok? ==> r.value == Horner(0, DigitPart(s)) && r.value <= max
    ensures s != [] && DigitPart(s) == [] ==> r == Err(InvalidDigit)
    ensures forall k ::
      (0 <= k < |DigitPart(s)| && !IsAsciiDigit(DigitPart(s)[k])
       && AllDigits(DigitPart(s)[..k]) && Horner(0, DigitPart(s)[..k]) <= max) ==> r == Err(InvalidDigit)
    ensures r == Err(PosOverflow) ==>
      exists k :: 0 < k <= |DigitPart(s)| && AllDigits(DigitPart(s)[..k]) && Horner(0, DigitPart(s)[..k]) > max
    ensures forall k ::
      (0 < k <= |DigitPart(s)| && AllDigits(DigitPart(s)[..k]) && Horner(0, DigitPart(s)[..k]) > max) ==> r == Err(PosOverflow)
  {
    if s == [] then Err(Empty)
    else if (s[0] == '+' || s[0] == '-') && |s| == 1 then Err(InvalidDigit)
    else if s[0] == '+' then AccumulateSpec(s[1..], 0, max); AccumulateOverflow(s[1..], 0, max); Accumulate(s[1..], 0, max)
    else AccumulateSpec(s, 0, max); AccumulateOverflow(s, 0, max); Accumulate(s, 0, max)
  }

  /** The value of a digit string read left to right, starting from `acc`. */
  function Horner(acc: nat, ds: string): nat
    requires AllDigits(ds)
    decreases |ds|
  {
    if ds == [] then acc else Horner(acc * 10 + DigitValue(ds[0]), ds[1..])
  }

  lemma {:induction false} HornerAtLeast(acc: nat, ds: string)
    requires AllDigits(ds)
    ensures Horner(acc, ds) >= acc
    decreases |ds|
  {
    if ds != [] {
      HornerAtLeast(acc * 10 + DigitValue(ds[0]), ds[1..]);
    }
  }

  /** Reading the first digit of a digit prefix moves it into the accumulator. */
  lemma HornerPrefix(ds: string, acc: nat, k: nat)
    requires 0 < k <= |ds| && AllDigits(ds[..k])
    ensures IsAsciiDigit(ds[0]) && AllDigits(ds[1..][..k - 1])
    ensures Horner(acc, ds[..k]) == Horner(acc * 10 + DigitValue(ds[0]), ds[1..][..k - 1])
  {
    assert ds[..k][0] == ds[0];
    assert ds[..k][1..] == ds[1..][..k - 1];
  }

  /** What the parse loop yields, for every input: the value, InvalidDigit or PosOverflow. */
  lemma {:induction false} AccumulateSpec(ds: string, acc: nat, max: nat)
    requires acc <= max
    ensures var r := Accumulate(ds, acc, max);
      && (r.Ok? <==> AllDigits(ds) && Horner(acc, ds) <= max)
      && (r.Ok? ==> r.value == Horner(acc, ds))
      && (r == Err(PosOverflow) ==> exists k :: 0 < k <= |ds| && AllDigits(ds[..k]) && Horner(acc, ds[..k]) > max)
      && (forall k :: 0 <= k < |ds| && !IsAsciiDigit(ds[k]) && AllDigits(ds[..k]) && Horner(acc, ds[..k]) <= max
                      ==> r == Err(InvalidDigit))
    decreases |ds|
  {
    if ds != [] && IsAsciiDigit(ds[0]) {
      var next := acc * 10 + DigitValue(ds[0]);
      var r := Accumulate(ds, acc, max);
      forall k | 0 < k <= |ds| && AllDigits(ds[..k])
        ensures Horner(acc, ds[..k]) == Horner(next, ds[1..][..k - 1]) >= next
      {
        HornerPrefix(ds, acc, k);
        HornerAtLeast(next, ds[1..][..k - 1]);
      }
      assert AllDigits(ds) ==> ds[..|ds|] == ds;
      if next > max {
        assert ds[..1][1..] == [];
        assert AllDigits(ds[..1]) && Horner(acc, ds[..1]) > max;
      } else {
        AccumulateSpec(ds[1..], next, max);
        assert AllDigits(ds) <==> AllDigits(ds[1..]);
        if r == Err(PosOverflow) {
          var k :| 0 < k <= |ds[1..]| && AllDigits(ds[1..][..k]) && Horner(next, ds[1..][..k]) > max;
          assert ds[..k + 1] == [ds[0]] + ds[1..][..k];
          assert AllDigits(ds[..k + 1]);
        }
        forall k | 0 < k < |ds| && !IsAsciiDigit(ds[k]) && AllDigits(ds[..k]) && Horner(acc, ds[..k]) <= max
          ensures r == Err(InvalidDigit)
        {
          HornerPrefix(ds, acc, k);
          assert ds[1..][k - 1] == ds[k];
        }
      }
    }
  }

  /** A digit prefix whose value exceeds `max` stops the parse loop with PosOverflow. */
  lemma {:induction false} AccumulateOverflow(ds: string, acc: nat, max: nat)
    requires acc <= max
    ensures forall k :: 0 < k <= |ds| && AllDigits(ds[..k]) && Horner(acc, ds[..k]) > max
                        ==> Accumulate(ds, acc, max) == Err(PosOverflow)
    decreases |ds|
  {
    if ds != [] && IsAsciiDigit(ds[0]) {
      var next := acc * 10 + DigitValue(ds[0]);
      if next <= max {
        AccumulateOverflow(ds[1..], next, max);
        forall k | 0 < k <= |ds| && AllDigits(ds[..k]) && Horner(acc, ds[..k]) > max
          ensures Accumulate(ds, acc, max) == Err(PosOverflow)
        {
          HornerPrefix(ds, acc, k);
        }
      }
    }
  }

  /** On digits, the parse loop either yields the value or overflows; nothing else. */
  lemma {:induction false} AccumulateDigits(ds: string, acc: nat, max: nat)
    requires AllDigits(ds) && acc <= max
    ensures Accumulate(ds, acc, max) == if Horner(acc, ds) <= max then Ok(Horner(acc, ds)) else Err(PosOverflow)
    decreases |ds|
  {
    if ds != [] {
      var next := acc * 10 + DigitValue(ds[0]);
      HornerAtLeast(next, ds[1..]);
      if next <= max {
        AccumulateDigits(ds[1..], next, max);
      }
    }
  }

  lemma {:induction false} HornerSnoc(acc: nat, ds: string, c: char)
    requires AllDigits(ds) && IsAsciiDigit(c)
    ensures AllDigits(ds + [c])
    ensures Horner(acc, ds + [c]) == Horner(acc, ds) * 10 + DigitValue(c)
    decreases |ds|
  {
    if ds == [] {
      assert ds + [c] == [c];
    } else {
      assert (ds + [c])[1..] == ds[1..] + [c];
      HornerSnoc(acc * 10 + DigitValue(ds[0]), ds[1..], c);
    }
  }

  /** `u64::to_string`: the shortest decimal spelling of `n`. */
  function ToDecimal(n: nat): (s: string)
    ensures |s| >= 1 && AllDigits(s)
    ensures Horner(0, s) == n
    ensures |s| == 1 || s[0] != '0'
  {
    if n < 10 then
      [DigitChar(n)]
    else
      var front := ToDecimal(n / 10);
      HornerSnoc(0, front, DigitChar(n % 10));
      assert |front| == 1 ==> Horner(0, front) == DigitValue(front[0]);
      front + [DigitChar(n % 10)]
  }

  /** Parsing the decimal spelling of a representable number gives the number back. */
  lemma ParseToDecimal(n: nat, max: nat)
    requires n <= max
    ensures ParseUnsigned(ToDecimal(n), max) == Ok(n)
  {
    var s := ToDecimal(n);
    AccumulateDigits(s, 0, max);
  }

  /** A digit string parses to its value when that value fits, and overflows otherwise. */
  lemma ParseDigits(s: string, max: nat)
    requires s != [] && AllDigits(s)
    ensures ParseUnsigned(s, max) == if Horner(0, s) <= max then Ok(Horner(0, s)) else Err(PosOverflow)
  {
    AccumulateDigits(s, 0, max);
  }
}
