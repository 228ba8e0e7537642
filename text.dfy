/** Character-level string helpers shared by the completion provider and the
    preference loader: trimming, ASCII case folding, substring search, line
    splitting and decimal numerals. Strings are sequences of Unicode scalar
    values, so every index is a character boundary. */
module Text {

  function Min(a: int, b: int): int { if a <= b then a else b }

  /** The characters with Unicode's White_Space property: the set that Rust's
      `char::is_whitespace`, and so `str::trim`, removes. */
  predicate IsWhitespace(c: char) {
    ('\t' <= c <= '\r') || c == ' ' || c == '\U{0085}' || c == '\U{00A0}'
    || c == '\U{1680}' || ('\U{2000}' <= c <= '\U{200A}') || c == '\U{2028}'
    || c == '\U{2029}' || c == '\U{202F}' || c == '\U{205F}' || c == '\U{3000}'
  }

  predicate StartsWith(s: string, p: string) { |p| <= |s| && s[..|p|] == p }

  predicate EndsWith(s: string, p: string) { |p| <= |s| && s[|s| - |p|..] == p }

  /** `r` is what is left of `s` after dropping the first `i` characters and
      a run of trailing ones, all of them `drop` characters. */
  ghost predicate IsTrimAt(r: string, s: string, drop: char -> bool, i: int) {
    0 <= i <= |s| - |r| && s[i..i + |r|] == r
    && (forall k :: 0 <= k < i ==> drop(s[k]))
    && (forall k :: i + |r| <= k < |s| ==> drop(s[k]))
  }

  ghost predicate IsTrimOf(r: string, s: string, drop: char -> bool) {
    exists i :: IsTrimAt(r, s, drop, i)
  }

  /** The first index at or after `i` that does not hold a `drop` character
      (or `|s|`). */
  function SkipStart(s: string, drop: char -> bool, i: nat): (r: nat)
    requires i <= |s|
    ensures i <= r <= |s|
    ensures forall k :: i <= k < r ==> drop(s[k])
    ensures r == |s| || !drop(s[r])
    decreases |s| - i
  {
    if i < |s| && drop(s[i]) then SkipStart(s, drop, i + 1) else i
  }

  /** The index just after the last character before `j`, and not before
      `lo`, that is not a `drop` character (or `lo`). */
  function SkipEnd(s: string, drop: char -> bool, lo: nat, j: nat): (r: nat)
    requires lo <= j <= |s|
    ensures lo <= r <= j
    ensures forall k :: r <= k < j ==> drop(s[k])
    ensures r == lo || !drop(s[r - 1])
    decreases j
  {
    if lo < j && drop(s[j - 1]) then SkipEnd(s, drop, lo, j - 1) else j
  }

  /** Rust's `str::trim_matches` with a character predicate: the part of `s`
      between its leading and its trailing run of `drop` characters.
      `TrimWhereFacts` states what it leaves. */
  function TrimWhere(s: string, drop: char -> bool): (r: string)
    ensures |r| <= |s|
  {
    var i := SkipStart(s, drop, 0);
    s[i..SkipEnd(s, drop, i, |s|)]
  }

  /** Trimming leaves a contiguous part of `s` with only `drop` characters
      cut from its ends, that neither starts nor ends with one, and that is
      empty exactly when every character of `s` is a `drop` character. */
  lemma TrimWhereFacts(s: string, drop: char -> bool)
    ensures IsTrimOf(TrimWhere(s, drop), s, drop)
    ensures var r := TrimWhere(s, drop); r == [] || (!drop(r[0]) && !drop(r[|r| - 1]))
    ensures TrimWhere(s, drop) == [] <==> forall k :: 0 <= k < |s| ==> drop(s[k])
  {
    var i := SkipStart(s, drop, 0);
    var j := SkipEnd(s, drop, i, |s|);
    var r := s[i..j];
    assert IsTrimAt(r, s, drop, i);
    if r != [] {
      assert r[0] == s[i] && r[|r| - 1] == s[j - 1];
    }
  }

  /** Rust's `str::trim`. */
  function Trim(s: string): (r: string)
    ensures |r| <= |s|
  {
    TrimWhere(s, IsWhitespace)
  }

  /** Every character is whitespace. */
  predicate Blank(s: string) {
    forall k :: 0 <= k < |s| ==> IsWhitespace(s[k])
  }

  /** A trimmed string is empty exactly when the string is all whitespace. */
  lemma TrimEmptyIffBlank(s: string)
    ensures Trim(s) == [] <==> Blank(s)
  {
    TrimWhereFacts(s, IsWhitespace);
  }

  /** A string that neither starts nor ends with a `drop` character is its own trim. */
  lemma TrimWhereNoop(s: string, drop: char -> bool)
    requires s == [] || (!drop(s[0]) && !drop(s[|s| - 1]))
    ensures TrimWhere(s, drop) == s
  {
    assert SkipStart(s, drop, 0) == 0;
    assert SkipEnd(s, drop, 0, |s|) == |s|;
    assert s[0..|s|] == s;
  }

  /** Trimming twice is trimming once. */
  lemma TrimIdempotent(s: string)
    ensures Trim(Trim(s)) == Trim(s)
  {
    TrimWhereFacts(s, IsWhitespace);
    TrimWhereNoop(Trim(s), IsWhitespace);
  }

  function LowerAscii(c: char): char {
    if 'A' <= c <= 'Z' then (c as int + 32) as char else c
  }

  /** ASCII lower-casing of every character (Rust's `to_ascii_lowercase`). */
  function ToLowerAscii(s: string): (r: string)
    ensures |r| == |s|
  {
    seq(|s|, i requires 0 <= i < |s| => LowerAscii(s[i]))
  }

  lemma ToLowerAsciiIdempotent(s: string)
    ensures ToLowerAscii(ToLowerAscii(s)) == ToLowerAscii(s)
  {
  }

  lemma ToLowerAsciiSlice(s: string, i: nat, j: nat)
    requires i <= j <= |s|
    ensures ToLowerAscii(s[i..j]) == ToLowerAscii(s)[i..j]
  {
  }

  /** Lower-casing neither creates nor removes whitespace, so the whitespace
      runs at both ends are found at the same places. */
  lemma {:induction false} LowerSkipStart(s: string, i: nat)
    requires i <= |s|
    ensures SkipStart(ToLowerAscii(s), IsWhitespace, i) == SkipStart(s, IsWhitespace, i)
    decreases |s| - i
  {
    if i < |s| {
      assert IsWhitespace(ToLowerAscii(s)[i]) == IsWhitespace(s[i]);
      LowerSkipStart(s, i + 1);
    }
  }

  lemma {:induction false} LowerSkipEnd(s: string, lo: nat, j: nat)
    requires lo <= j <= |s|
    ensures SkipEnd(ToLowerAscii(s), IsWhitespace, lo, j) == SkipEnd(s, IsWhitespace, lo, j)
    decreases j
  {
    if lo < j {
      assert IsWhitespace(ToLowerAscii(s)[j - 1]) == IsWhitespace(s[j - 1]);
      LowerSkipEnd(s, lo, j - 1);
    }
  }

  /** Lower-casing commutes with trimming. */
  lemma LowerTrim(s: string)
    ensures ToLowerAscii(Trim(s)) == Trim(ToLowerAscii(s))
  {
    var i := SkipStart(s, IsWhitespace, 0);
    LowerSkipStart(s, 0);
    LowerSkipEnd(s, i, |s|);
    ToLowerAsciiSlice(s, i, SkipEnd(s, IsWhitespace, i, |s|));
  }

  /** Substring search (Rust's `str::contains` with a string needle). */
  predicate Contains(s: string, needle: string)
    decreases |s|
  {
    StartsWith(s, needle) || (|s| > 0 && Contains(s[1..], needle))
  }

  /** `needle` occurs in `s` starting at index `i`. */
  predicate OccursAt(s: string, needle: string, i: int) {
    0 <= i <= |s| - |needle| && s[i..i + |needle|] == needle
  }

  /** `Contains` finds the needle at some position, and every occurrence is found. */
  lemma {:induction false} ContainsAt(s: string, needle: string)
    ensures Contains(s, needle) <==> exists i :: OccursAt(s, needle, i)
    decreases |s|
  {
    if StartsWith(s, needle) {
      assert OccursAt(s, needle, 0);
    } else if |s| > 0 {
      ContainsAt(s[1..], needle);
      if Contains(s[1..], needle) {
        var i :| OccursAt(s[1..], needle, i);
        assert s[i + 1..i + 1 + |needle|] == s[1..][i..i + |needle|];
        assert OccursAt(s, needle, i + 1);
      }
      if i :| OccursAt(s, needle, i) {
        assert i != 0;
        assert s[1..][i - 1..i - 1 + |needle|] == s[i..i + |needle|];
        assert OccursAt(s[1..], needle, i - 1);
      }
    }
  }

  /** A lower-case needle found in `s` is still found once `s` is lower-cased. */
  lemma {:induction false} ContainsLowered(s: string, needle: string)
    requires ToLowerAscii(needle) == needle
    requires Contains(s, needle)
    ensures Contains(ToLowerAscii(s), needle)
    decreases |s|
  {
    var l := ToLowerAscii(s);
    if StartsWith(s, needle) {
      assert l[..|needle|] == ToLowerAscii(s[..|needle|]);
    } else {
      assert l[1..] == ToLowerAscii(s[1..]);
      ContainsLowered(s[1..], needle);
    }
  }

  /** Every piece between '\n' characters (Rust's `str::split('\n')`). */
  function Split(s: string): (r: seq<string>)
    ensures |r| >= 1
    decreases |s|
  {
    if |s| == 0 then [""]
    else
      var rest := Split(s[1..]);
      if s[0] == '\n' then [""] + rest else [[s[0]] + rest[0]] + rest[1..]
  }

  /** Joins `parts` with `sep` between neighbours (Rust's `join`). */
  function Join(parts: seq<string>, sep: string): string
    decreases |parts|
  {
    if |parts| == 0 then ""
    else if |parts| == 1 then parts[0]
    else parts[0] + sep + Join(parts[1..], sep)
  }

  predicate NoNewline(s: string) { forall k :: 0 <= k < |s| ==> s[k] != '\n' }

  lemma {:induction false} SplitPiecesHaveNoNewline(s: string)
    ensures forall k :: 0 <= k < |Split(s)| ==> NoNewline(Split(s)[k])
    decreases |s|
  {
    if |s| > 0 {
      SplitPiecesHaveNoNewline(s[1..]);
    }
  }

  /** Splitting and re-joining with '\n' gives the string back. */
  lemma {:induction false} JoinSplit(s: string)
    ensures Join(Split(s), "\n") == s
    decreases |s|
  {
    if |s| > 0 {
      var rest := Split(s[1..]);
      JoinSplit(s[1..]);
      if s[0] == '\n' {
        assert Split(s)[1..] == rest;
      } else if |rest| == 1 {
        assert Split(s) == [[s[0]] + rest[0]];
      } else {
        assert Split(s)[1..] == rest[1..];
        assert Join(rest, "\n") == rest[0] + "\n" + Join(rest[1..], "\n");
        assert s == [s[0]] + s[1..];
      }
    }
  }

  /** A newline-free string is a single piece. */
  lemma {:induction false} SplitNoNewline(a: string)
    requires NoNewline(a)
    ensures Split(a) == [a]
    decreases |a|
  {
    if |a| > 0 {
      SplitNoNewline(a[1..]);
      assert [a[0]] + a[1..] == a;
    }
  }

  /** Splitting at the first '\n' after a newline-free head. */
  lemma {:induction false} SplitCons(a: string, b: string)
    requires NoNewline(a)
    ensures Split(a + "\n" + b) == [a] + Split(b)
    decreases |a|
  {
    if |a| == 0 {
      assert a + "\n" + b == "\n" + b;
      assert ("\n" + b)[1..] == b;
    } else {
      assert (a + "\n" + b)[1..] == a[1..] + "\n" + b;
      SplitCons(a[1..], b);
      assert [a[0]] + a[1..] == a;
    }
  }

  /** Rust's `str::lines()` on '\n'-terminated lines: the pieces between
      '\n' characters, where a final '\n' does not open an empty last line
      and the empty string has no lines. */
  function Lines(s: string): seq<string> {
    if |s| == 0 then []
    else
      var pieces := Split(s);
      if s[|s| - 1] == '\n' then pieces[..|pieces| - 1] else pieces
  }

  /** The first line is everything up to the first '\n'. */
  lemma LinesCons(a: string, b: string)
    requires NoNewline(a)
    ensures Lines(a + "\n" + b) == [a] + Lines(b)
  {
    SplitCons(a, b);
    var s := a + "\n" + b;
    if |b| == 0 {
      assert Split(b) == [""];
      assert s[|s| - 1] == '\n';
    } else {
      assert s[|s| - 1] == b[|b| - 1];
    }
  }

  /** A string has no lines exactly when it is empty; no line holds a '\n'. */
  lemma LinesFacts(s: string)
    ensures Lines(s) == [] <==> s == []
    ensures forall k :: 0 <= k < |Lines(s)| ==> NoNewline(Lines(s)[k])
  {
    SplitPiecesHaveNoNewline(s);
    if |s| > 0 && s[|s| - 1] == '\n' {
      var a := s[..|s| - 1];
      assert s == a + "\n" + "";
      assert Split(s) == Split(a) + Split("") by {
        SplitConcat(a, "");
      }
    }
  }

  /** Splitting at any '\n'. */
  lemma {:induction false} SplitConcat(a: string, b: string)
    ensures Split(a + "\n" + b) == Split(a) + Split(b)
    decreases |a|
  {
    var s := a + "\n" + b;
    if |a| == 0 {
      assert s == "\n" + b;
      assert s[1..] == b;
    } else {
      var s' := a[1..] + "\n" + b;
      assert s[0] == a[0] && s[1..] == s';
      SplitConcat(a[1..], b);
      var ra := Split(a[1..]);
      if a[0] != '\n' {
        var rest := ra + Split(b);
        assert rest[0] == ra[0];
        assert rest[1..] == ra[1..] + Split(b);
      }
    }
  }

  function DigitChar(d: nat): char
    requires d < 10
  {
    ('0' as int + d) as char
  }

  predicate IsDigit(c: char) { '0' <= c <= '9' }

  predicate AllDigits(s: string) { forall k :: 0 <= k < |s| ==> IsDigit(s[k]) }

  /** Decimal numeral of `n`, without leading zeros (Rust's `Display` for integers). */
  function NatToDecimal(n: nat): (r: string)
    ensures |r| >= 1 && AllDigits(r)
    ensures n < 10 <==> |r| == 1
    decreases n
  {
    if n < 10 then [DigitChar(n)] else NatToDecimal(n / 10) + [DigitChar(n % 10)]
  }

  /** Value of a string of decimal digits. */
  function DecimalValue(s: string): nat
    requires AllDigits(s)
  {
    if |s| == 0 then 0 else DecimalValue(s[..|s| - 1]) * 10 + (s[|s| - 1] as int - '0' as int)
  }

  /** A leading zero adds nothing to the value. */
  lemma {:induction false} DecimalLeadingZero(s: string)
    requires AllDigits(s)
    ensures AllDigits("0" + s) && DecimalValue("0" + s) == DecimalValue(s)
    decreases |s|
  {
    var z := "0" + s;
    assert AllDigits(z) by {
      assert forall k :: 1 <= k < |z| ==> z[k] == s[k - 1];
    }
    if |s| > 0 {
      assert z[..|z| - 1] == "0" + s[..|s| - 1];
      DecimalLeadingZero(s[..|s| - 1]);
    }
  }

  lemma {:induction false} DecimalRoundTrip(n: nat)
    ensures DecimalValue(NatToDecimal(n)) == n
    decreases n
  {
    if n >= 10 {
      DecimalRoundTrip(n / 10);
      var r := NatToDecimal(n);
      assert r[..|r| - 1] == NatToDecimal(n / 10);
    }
  }
}
