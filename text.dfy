/** Character classes, searching, trimming, splitting and decimal digits: the
    string operations that the PHP, JavaScript and Rust code all lean on. */
module Text {
  import opened Wrappers

  type String = seq<char>

  predicate IsDigit(c: char) { '0' <= c <= '9' }
  predicate IsUpper(c: char) { 'A' <= c <= 'Z' }
  predicate IsLower(c: char) { 'a' <= c <= 'z' }
  predicate IsAsciiAlpha(c: char) { IsUpper(c) || IsLower(c) }
  predicate IsAscii(c: char) { c as int < 128 }

  predicate AllDigits(s: String) { forall i :: 0 <= i < |s| ==> IsDigit(s[i]) }
  predicate AllAscii(s: String) { forall i :: 0 <= i < |s| ==> IsAscii(s[i]) }

  /** ASCII lower-casing of one character (PHP's strtolower). */
  function LowerChar(c: char): char {
    if IsUpper(c) then (c as int + 32) as char else c
  }

  function ToLower(s: String): (r: String)
    ensures |r| == |s|
    ensures forall i :: 0 <= i < |s| ==> r[i] == LowerChar(s[i])
  {
    seq(|s|, i requires 0 <= i < |s| => LowerChar(s[i]))
  }

  /** Lower-casing twice is lower-casing once. */
  lemma ToLowerIdempotent(s: String)
    ensures ToLower(ToLower(s)) == ToLower(s)
  {
    var t := ToLower(s);
    forall i | 0 <= i < |s| ensures ToLower(t)[i] == t[i] {
      assert !IsUpper(t[i]);
    }
  }

  predicate StartsWith(s: String, p: String) { |p| <= |s| && s[..|p|] == p }
  predicate EndsWith(s: String, p: String) { |p| <= |s| && s[|s| - |p|..] == p }

  /** `p` occurs in `s` starting at index `i`. */
  predicate OccursAt(s: String, p: String, i: nat) { i + |p| <= |s| && s[i..i + |p|] == p }

  predicate Contains(s: String, p: String) {
    exists i: nat | i <= |s| :: OccursAt(s, p, i)
  }

  /** First occurrence of `p` in `s` at or after `from`. */
  function FindFrom(s: String, p: String, from: nat): (r: Option<nat>)
    ensures r.Some? ==> from <= r.value && OccursAt(s, p, r.value)
    ensures r.Some? ==> forall j :: from <= j < r.value ==> !OccursAt(s, p, j)
    ensures r.None? ==> forall j :: from <= j ==> !OccursAt(s, p, j)
    decreases |s| + 1 - from
  {
    if from + |p| > |s| then None
    else if OccursAt(s, p, from) then Some(from)
    else FindFrom(s, p, from + 1)
  }

  /** `i` is the first occurrence of `p` in `s` at or after `from`. */
  ghost predicate FirstAt(s: String, p: String, from: nat, i: nat) {
    from <= i && OccursAt(s, p, i) && forall j :: from <= j < i ==> !OccursAt(s, p, j)
  }

  /** `i` is the last occurrence of `p` in `s`, and lies at or after `from`. */
  ghost predicate LastAt(s: String, p: String, from: nat, i: nat) {
    from <= i && OccursAt(s, p, i) && forall j :: i < j ==> !OccursAt(s, p, j)
  }

  /** There is one first occurrence from a given position. */
  lemma FirstAtUnique(s: String, p: String, from: nat, i: nat, k: nat)
    requires FirstAt(s, p, from, i) && FirstAt(s, p, from, k)
    ensures i == k
  {
  }

  /** An occurrence inside a slice is an occurrence in the whole string. */
  lemma OccursInSlice(s: String, lo: nat, hi: nat, p: String, j: nat)
    requires lo <= hi <= |s| && OccursAt(s[lo..hi], p, j)
    ensures OccursAt(s, p, lo + j)
  {
    forall k | 0 <= k < |p| ensures s[lo + j + k] == p[k] {
      assert s[lo..hi][j..j + |p|][k] == p[k];
    }
    assert s[lo + j..lo + j + |p|] == p;
  }

  /** Last occurrence of `p` in `s` in [from, hi). */
  function FindLastBelow(s: String, p: String, from: nat, hi: nat): (r: Option<nat>)
    ensures r.Some? ==> from <= r.value < hi && OccursAt(s, p, r.value)
    ensures r.Some? ==> forall j :: r.value < j < hi ==> !OccursAt(s, p, j)
    ensures r.None? ==> forall j :: from <= j < hi ==> !OccursAt(s, p, j)
    decreases hi
  {
    if hi <= from then None
    else if OccursAt(s, p, hi - 1) then Some(hi - 1)
    else FindLastBelow(s, p, from, hi - 1)
  }

  /** Last occurrence of `p` in `s` at or after `from`. */
  function FindLastFrom(s: String, p: String, from: nat): (r: Option<nat>)
    ensures r.Some? ==> from <= r.value && OccursAt(s, p, r.value)
    ensures r.Some? ==> forall j :: r.value < j ==> !OccursAt(s, p, j)
    ensures r.None? ==> forall j :: from <= j ==> !OccursAt(s, p, j)
  {
    FindLastBelow(s, p, from, |s| + 1)
  }

  // ---------------------------------------------------------------- trimming

  /** The characters PHP's trim() removes by default. */
  predicate IsPhpTrimChar(c: char) {
    c == ' ' || c == '\t' || c == '\n' || c == '\r' || c == '\0' || c == '\U{000B}'
  }

  /** Unicode White_Space, the set Rust's str::trim removes. */
  predicate IsRustWhitespace(c: char) {
    ('\t' <= c <= '\r') || c == ' ' || c == '\U{0085}' || c == '\U{00A0}' || c == '\U{1680}'
    || ('\U{2000}' <= c <= '\U{200A}') || c == '\U{2028}' || c == '\U{2029}'
    || c == '\U{202F}' || c == '\U{205F}' || c == '\U{3000}'
  }

  function TrimStartBy(s: String, ws: char -> bool): (r: String)
    ensures |r| <= |s| && r == s[|s| - |r|..]
    ensures r == [] || !ws(r[0])
    ensures forall i :: 0 <= i < |s| - |r| ==> ws(s[i])
  {
    if s != [] && ws(s[0]) then
      var r := TrimStartBy(s[1..], ws);
      assert s[1..][|s| - 1 - |r|..] == s[|s| - |r|..];
      assert forall i :: 1 <= i < |s| - |r| ==> s[i] == s[1..][i - 1];
      r
    else s
  }

  function TrimEndBy(s: String, ws: char -> bool): (r: String)
    ensures |r| <= |s| && r == s[..|r|]
    ensures r == [] || !ws(r[|r| - 1])
    ensures forall i :: |r| <= i < |s| ==> ws(s[i])
  {
    if s != [] && ws(s[|s| - 1]) then
      var r := TrimEndBy(s[..|s| - 1], ws);
      assert s[..|s| - 1][..|r|] == s[..|r|];
      assert forall i :: |r| <= i < |s| - 1 ==> s[i] == s[..|s| - 1][i];
      r
    else s
  }

  /** `r` sits in `s` from index `a` with only trim characters around it. */
  predicate TrimmedSliceAt(s: String, r: String, a: nat, ws: char -> bool) {
    a + |r| <= |s| && r == s[a..a + |r|]
    && (forall i :: 0 <= i < a ==> ws(s[i])) && (forall i :: a + |r| <= i < |s| ==> ws(s[i]))
  }

  function TrimBy(s: String, ws: char -> bool): (r: String)
    ensures r == [] || (!ws(r[0]) && !ws(r[|r| - 1]))
  {
    TrimEndBy(TrimStartBy(s, ws), ws)
  }

  /** What trim leaves of `s` is one contiguous slice of it with only trim
      characters on either side. */
  lemma TrimByIsSlice(s: String, ws: char -> bool)
    ensures exists a :: TrimmedSliceAt(s, TrimBy(s, ws), a, ws)
  {
    var t := TrimStartBy(s, ws);
    var a, u := |s| - |t|, TrimEndBy(t, ws);
    assert u == s[a..a + |u|] by {
      assert t == s[a..] && u == t[..|u|];
    }
    forall i | a + |u| <= i < |s| ensures ws(s[i]) {
      assert s[i] == t[i - a];
    }
    assert TrimBy(s, ws) == u && TrimmedSliceAt(s, u, a, ws);
  }

  /** PHP trim: strips " \t\n\r\0\x0B" from both ends. */
  function TrimPhp(s: String): (r: String)
    ensures |r| <= |s|
    ensures r == [] || (!IsPhpTrimChar(r[0]) && !IsPhpTrimChar(r[|r| - 1]))
  {
    TrimBy(s, IsPhpTrimChar)
  }

  /** Rust's str::trim: strips Unicode White_Space from both ends. */
  function TrimRust(s: String): (r: String)
    ensures |r| <= |s|
    ensures r == [] || (!IsRustWhitespace(r[0]) && !IsRustWhitespace(r[|r| - 1]))
  {
    TrimBy(s, IsRustWhitespace)
  }

  function TrimStartRust(s: String): String { TrimStartBy(s, IsRustWhitespace) }
  function TrimEndRust(s: String): String { TrimEndBy(s, IsRustWhitespace) }

  // ------------------------------------------------------- splitting, joining

  /** The pieces of `s` between occurrences of `sep` (PHP explode, with one
      piece for the empty string). */
  function Split(s: String, sep: char): (r: seq<String>)
    ensures |r| >= 1
    ensures forall k :: 0 <= k < |r| ==> sep !in r[k]
  {
    if s == [] then [[]]
    else
      var rest := Split(s[1..], sep);
      if s[0] == sep then [[]] + rest else [[s[0]] + rest[0]] + rest[1..]
  }

  function Join(parts: seq<String>, sep: String): String {
    if parts == [] then []
    else if |parts| == 1 then parts[0]
    else parts[0] + sep + Join(parts[1..], sep)
  }

  /** Splitting and joining with the same separator gives back the string. */
  lemma {:induction false} JoinSplit(s: String, sep: char)
    ensures Join(Split(s, sep), [sep]) == s
  {
    if s != [] {
      JoinSplit(s[1..], sep);
      var rest := Split(s[1..], sep);
      if s[0] == sep {
        assert Split(s, sep) == [[]] + rest;
        assert s == [] + [sep] + Join(rest, [sep]);
      } else {
        var r := Split(s, sep);
        assert r == [[s[0]] + rest[0]] + rest[1..];
        if |rest| == 1 {
          assert Join(r, [sep]) == [s[0]] + rest[0];
        } else {
          assert r[1..] == rest[1..];
          assert Join(rest, [sep]) == rest[0] + [sep] + Join(rest[1..], [sep]);
          assert Join(r, [sep]) == [s[0]] + rest[0] + [sep] + Join(rest[1..], [sep]);
        }
      }
    }
  }

  /** A string free of the separator is one piece. */
  lemma {:induction false} SplitNoSep(a: String, sep: char)
    requires sep !in a
    ensures Split(a, sep) == [a]
  {
    if a != [] {
      assert sep !in a[1..];
      SplitNoSep(a[1..], sep);
      assert [a[0]] + a[1..] == a;
    }
  }

  /** A separator-free prefix followed by the separator becomes its own piece. */
  lemma {:induction false} SplitAppend(a: String, sep: char, b: String)
    requires sep !in a
    ensures Split(a + [sep] + b, sep) == [a] + Split(b, sep)
  {
    if a == [] {
      assert a + [sep] + b == [sep] + b;
      assert ([sep] + b)[1..] == b;
    } else {
      assert sep !in a[1..];
      SplitAppend(a[1..], sep, b);
      var s := a + [sep] + b;
      assert s[0] == a[0] && s[1..] == a[1..] + [sep] + b;
      assert [a[0]] + a[1..] == a;
    }
  }

  /** Concatenation of a sequence of sequences, such as strings. */
  function Concat<T>(parts: seq<seq<T>>): seq<T> {
    if parts == [] then [] else parts[0] + Concat(parts[1..])
  }

  lemma {:induction false} ConcatAppend<T>(a: seq<seq<T>>, b: seq<seq<T>>)
    ensures Concat(a + b) == Concat(a) + Concat(b)
  {
    if a != [] {
      assert (a + b)[1..] == a[1..] + b;
      ConcatAppend(a[1..], b);
    } else {
      assert a + b == b;
    }
  }

  /** The pieces that `f` makes of each element, concatenated in order. */
  function FlatMap<T, U>(xs: seq<T>, f: T -> seq<U>): seq<U> {
    if xs == [] then [] else f(xs[0]) + FlatMap(xs[1..], f)
  }

  lemma {:induction false} FlatMapAppend<T, U>(a: seq<T>, b: seq<T>, f: T -> seq<U>)
    ensures FlatMap(a + b, f) == FlatMap(a, f) + FlatMap(b, f)
  {
    if a != [] {
      assert (a + b)[0] == a[0] && (a + b)[1..] == a[1..] + b;
      FlatMapAppend(a[1..], b, f);
    } else {
      assert a + b == b;
    }
  }

  /** When every element makes exactly one piece, piece j comes from element j. */
  lemma {:induction false} FlatMapSingletons<T, U>(xs: seq<T>, f: T -> seq<U>)
    requires forall j :: 0 <= j < |xs| ==> |f(xs[j])| == 1
    ensures |FlatMap(xs, f)| == |xs|
    ensures forall j :: 0 <= j < |xs| ==> FlatMap(xs, f)[j] == f(xs[j])[0]
  {
    if xs != [] {
      var tail := xs[1..];
      FlatMapSingletons(tail, f);
      var head := f(xs[0]);
      assert FlatMap(xs, f) == head + FlatMap(tail, f);
      forall j | 1 <= j < |xs| ensures FlatMap(xs, f)[j] == f(xs[j])[0] {
        assert tail[j - 1] == xs[j];
      }
    }
  }

  /** When no element makes a piece there are none. */
  lemma {:induction false} FlatMapNone<T, U>(xs: seq<T>, f: T -> seq<U>)
    requires forall j :: 0 <= j < |xs| ==> f(xs[j]) == []
    ensures FlatMap(xs, f) == []
  {
    if xs != [] {
      var tail := xs[1..];
      assert forall j :: 0 <= j < |tail| ==> tail[j] == xs[j + 1];
      FlatMapNone(tail, f);
    }
  }

  /** Rust's str::lines: split on '\n', drop the empty piece after a final
      newline (and the only piece of the empty string), and strip the '\r'
      of a "\r\n" ending. A bare '\r' at the very end, with no '\n' after
      it, stays on the last line. */
  function RustLines(s: String): (r: seq<String>)
    ensures forall k :: 0 <= k < |r| ==> '\n' !in r[k]
    ensures '\n' !in s ==> r == if s == [] then [] else [s]
  {
    var parts := Split(s, '\n');
    var kept := if parts[|parts| - 1] == [] then parts[..|parts| - 1] else parts;
    var r := seq(|kept|, k requires 0 <= k < |kept| => if k < |parts| - 1 then StripCr(kept[k]) else kept[k]);
    assert '\n' !in s ==> r == if s == [] then [] else [s] by {
      if '\n' !in s {
        SplitNoSep(s, '\n');
      }
    }
    r
  }

  /** A bare carriage return at the very end stays on the line. */
  lemma RustLinesKeepsFinalCr()
    ensures RustLines("a\r") == ["a\r"]
  {
  }

  /** The carriage return of a "\r\n" ending is stripped. */
  lemma RustLinesStripsCrlf()
    ensures RustLines("x\r\ny") == ["x", "y"]
  {
    assert "x\r" + ['\n'] + "y" == "x\r\ny";
    SplitAppend("x\r", '\n', "y");
    SplitNoSep("y", '\n');
    assert Split("x\r\ny", '\n') == ["x\r", "y"];
    assert StripCr("x\r") == "x";
  }

  function StripCr(line: String): (r: String)
    ensures r == line || r + "\r" == line
  {
    if line != [] && line[|line| - 1] == '\r' then line[..|line| - 1] else line
  }

  // ----------------------------------------------------------- decimal digits

  function DigitValue(c: char): nat
    requires IsDigit(c)
  {
    c as int - '0' as int
  }

  function DigitChar(d: nat): (c: char)
    requires d < 10
    ensures IsDigit(c) && DigitValue(c) == d
  {
    ('0' as int + d) as char
  }

  /** The value of a run of decimal digits (PHP's (int) cast of such a string). */
  function DigitsValue(s: String): nat
    requires AllDigits(s)
  {
    if s == [] then 0 else DigitsValue(s[..|s| - 1]) * 10 + DigitValue(s[|s| - 1])
  }

  /** Decimal rendering of a natural number, as JavaScript and Rust print it. */
  function NatToString(n: nat): (s: String)
    ensures |s| >= 1 && AllDigits(s)
    ensures n >= 10 ==> s[0] != '0'
  {
    if n < 10 then [DigitChar(n)] else NatToString(n / 10) + [DigitChar(n % 10)]
  }

  /** Reading back the decimal rendering gives the number. */
  lemma {:induction false} NatToStringRoundTrip(n: nat)
    ensures DigitsValue(NatToString(n)) == n
  {
    if n >= 10 {
      NatToStringRoundTrip(n / 10);
      var s := NatToString(n);
      assert s[..|s| - 1] == NatToString(n / 10);
    }
  }

  /** Different numbers have different decimal renderings. */
  lemma NatToStringInjective(a: nat, b: nat)
    requires NatToString(a) == NatToString(b)
    ensures a == b
  {
    NatToStringRoundTrip(a);
    NatToStringRoundTrip(b);
  }

  /** Two digits denote a value below 100. */
  lemma TwoDigitsBelow100(s: String)
    requires |s| == 2 && AllDigits(s)
    ensures DigitsValue(s) < 100
  {
    assert s[..1][..0] == [];
    assert DigitsValue(s[..1]) == DigitValue(s[0]);
  }

  /** Two-digit zero-padded rendering of a number below one hundred. */
  function TwoDigits(n: nat): (s: String)
    requires n < 100
    ensures |s| == 2 && AllDigits(s)
  {
    [DigitChar(n / 10), DigitChar(n % 10)]
  }

  lemma TwoDigitsValue(n: nat)
    requires n < 100
    ensures DigitsValue(TwoDigits(n)) == n
  {
    var s := TwoDigits(n);
    assert s[..1][..0] == [];
    assert DigitsValue(s[..1]) == n / 10;
  }

  lemma TwoDigitsDecimal(s: String)
    requires |s| == 2 && AllDigits(s)
    ensures DigitsValue(s) == DigitValue(s[0]) * 10 + DigitValue(s[1])
  {
    assert s[..1][..0] == [];
    assert DigitsValue(s[..1]) == DigitValue(s[0]);
  }

  lemma TwoDigitsOfValue(s: String)
    requires |s| == 2 && AllDigits(s)
    ensures DigitsValue(s) < 100 && TwoDigits(DigitsValue(s)) == s
  {
    TwoDigitsDecimal(s);
  }

  /** JavaScript's padStart(2, "0") on a decimal string. */
  function PadTwo(s: String): (r: String)
    ensures |r| >= 2 && |r| >= |s|
  {
    if |s| == 0 then "00" else if |s| == 1 then "0" + s else s
  }
}
