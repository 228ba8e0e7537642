/** Cleaning of the model's accumulated response before it becomes a
    suggestion: byte-order marks, markdown code fences and text that repeats
    what already surrounds the cursor
    (crates/ollama/src/edit_prediction_completion_provider.rs). */
module PostProcess {
  import opened Text

  predicate IsByteOrderMark(c: char) { c == '\U{FEFF}' }

  /** `trim_matches('\u{feff}')`: byte-order marks removed from both ends. */
  function TrimByteOrderMarks(s: string): (r: string)
    ensures IsTrimOf(r, s, IsByteOrderMark)
    ensures r == [] || (!IsByteOrderMark(r[0]) && !IsByteOrderMark(r[|r| - 1]))
  {
    TrimWhereFacts(s, IsByteOrderMark);
    TrimWhere(s, IsByteOrderMark)
  }

  const Fence := "```"

  /** The inline-code rule: one backtick dropped from each end of a text of
      more than two characters that starts and ends with one. */
  function StripInlineCode(t: string): string {
    if |t| > 2 && t[0] == '`' && t[|t| - 1] == '`' then t[1..|t| - 1] else t
  }

  /** Removes a markdown code block around the trimmed text: when it opens
      with a fence, has more than two lines and its last line trims to a
      fence, the lines in between joined by '\n'; otherwise the inline-code
      rule. */
  function StripMarkdownCodeBlocks(text: string): string {
    var t := Trim(text);
    if StartsWith(t, Fence) then
      var lines := Lines(t);
      if |lines| > 2 && Trim(lines[|lines| - 1]) == Fence then Join(lines[1..|lines| - 1], "\n")
      else StripInlineCode(t)
    else StripInlineCode(t)
  }

  /** A fenced block, with any language tag on the opening line, gives back
      exactly its body. */
  lemma StripFencedBlock(tag: string, body: string)
    requires NoNewline(tag)
    ensures StripMarkdownCodeBlocks(Fence + tag + "\n" + body + "\n" + Fence) == body
  {
    var s := Fence + tag + "\n" + body + "\n" + Fence;
    var lines := Lines(s);
    assert |lines| > 2 && Trim(lines[|lines| - 1]) == Fence && lines[1..|lines| - 1] == Split(body) by {
      FencedLines(tag, body);
      TrimWhereNoop(Fence, IsWhitespace);
    }
    assert Join(lines[1..|lines| - 1], "\n") == body by {
      JoinSplit(body);
    }
    FencedIsTrimmed(tag, body);
    StripOpensWithFence(s);
  }

  /** A fenced block has no whitespace to trim and opens with a fence. */
  lemma FencedIsTrimmed(tag: string, body: string)
    ensures var s := Fence + tag + "\n" + body + "\n" + Fence;
      Trim(s) == s && StartsWith(s, Fence)
  {
    var s := Fence + tag + "\n" + body + "\n" + Fence;
    assert s[0] == '`' && s[|s| - 1] == '`';
    TrimWhereNoop(s, IsWhitespace);
    assert s[..3] == Fence;
  }

  /** On already-trimmed text that opens with a fence and closes with one on
      a line of its own, the block's inner lines are what remains. */
  lemma StripOpensWithFence(s: string)
    requires Trim(s) == s && StartsWith(s, Fence)
    requires |Lines(s)| > 2 && Trim(Lines(s)[|Lines(s)| - 1]) == Fence
    ensures StripMarkdownCodeBlocks(s) == Join(Lines(s)[1..|Lines(s)| - 1], "\n")
  {
  }

  /** The lines of a fenced block: the opening line, the body's pieces, the
      closing fence. */
  lemma FencedLines(tag: string, body: string)
    requires NoNewline(tag)
    ensures Lines(Fence + tag + "\n" + body + "\n" + Fence) == [Fence + tag] + Split(body) + [Fence]
  {
    var s := Fence + tag + "\n" + body + "\n" + Fence;
    SplitFenced(tag, body);
    assert |s| > 0 && s[|s| - 1] == '`';
  }

  /** The opening fence line has no line break when the tag has none. */
  lemma OpeningHasNoNewline(tag: string)
    requires NoNewline(tag)
    ensures NoNewline(Fence + tag)
  {
    var opening := Fence + tag;
    assert forall k :: 3 <= k < |opening| ==> opening[k] == tag[k - 3];
  }

  lemma SplitFenced(tag: string, body: string)
    requires NoNewline(tag)
    ensures Split(Fence + tag + "\n" + body + "\n" + Fence) == [Fence + tag] + Split(body) + [Fence]
  {
    var opening := Fence + tag;
    var s := Fence + tag + "\n" + body + "\n" + Fence;
    assert s == opening + "\n" + (body + "\n" + Fence);
    OpeningHasNoNewline(tag);
    SplitCons(opening, body + "\n" + Fence);
    SplitConcat(body, Fence);
    SplitNoNewline(Fence);
  }

  /** Inline code loses exactly its two backticks, unless it opens a
      fence. */
  lemma StripInlineSpan(code: string)
    requires |code| >= 1 && !StartsWith(code, "``")
    ensures StripMarkdownCodeBlocks("`" + code + "`") == code
  {
    var s := "`" + code + "`";
    TrimWhereNoop(s, IsWhitespace);
    if |code| >= 2 {
      assert s[1..3] == code[..2];
      assert !StartsWith(s, Fence);
    } else if code[0] == '`' {
      assert NoNewline(s);
      SplitNoNewline(s);
      assert |Lines(s)| == 1;
    } else {
      assert !StartsWith(s, Fence);
    }
    assert s[1..|s| - 1] == code;
  }

  /** Text that does not start with a backtick is only trimmed. */
  lemma StripPlainText(text: string)
    requires Trim(text) == [] || Trim(text)[0] != '`'
    ensures StripMarkdownCodeBlocks(text) == Trim(text)
  {
    var t := Trim(text);
    assert !StartsWith(t, Fence) by {
      if |t| >= 3 {
        assert t[..3][0] == t[0];
      }
    }
    assert StripInlineCode(t) == t;
  }

  const MaxPrefixOverlap: nat := 100
  const MaxSuffixOverlap: nat := 80

  /** The last `k` characters of `prefix` are the first `k` of `completion`. */
  predicate PrefixOverlapAt(prefix: string, completion: string, k: nat)
    requires k <= |prefix| && k <= |completion|
  {
    prefix[|prefix| - k..] == completion[..k]
  }

  /** The last `k` characters of `completion` are the first `k` of `suffix`. */
  predicate SuffixOverlapAt(suffix: string, completion: string, k: nat)
    requires k <= |suffix| && k <= |completion|
  {
    completion[|completion| - k..] == suffix[..k]
  }

  /** The longest overlap of at most `n` characters, 0 when there is none. */
  function LongestPrefixOverlap(prefix: string, completion: string, n: nat): (k: nat)
    requires n <= |prefix| && n <= |completion|
    ensures k <= n
    ensures k > 0 ==> PrefixOverlapAt(prefix, completion, k)
    ensures forall j :: k < j <= n ==> !PrefixOverlapAt(prefix, completion, j)
  {
    if n == 0 then 0
    else if PrefixOverlapAt(prefix, completion, n) then n
    else LongestPrefixOverlap(prefix, completion, n - 1)
  }

  function LongestSuffixOverlap(suffix: string, completion: string, n: nat): (k: nat)
    requires n <= |suffix| && n <= |completion|
    ensures k <= n
    ensures k > 0 ==> SuffixOverlapAt(suffix, completion, k)
    ensures forall j :: k < j <= n ==> !SuffixOverlapAt(suffix, completion, j)
  {
    if n == 0 then 0
    else if SuffixOverlapAt(suffix, completion, n) then n
    else LongestSuffixOverlap(suffix, completion, n - 1)
  }

  /** The longest overlap is pinned down by the overlap at `k` and the
      absence of one above it. */
  lemma {:induction false} LongestPrefixOverlapIs(prefix: string, completion: string, n: nat, k: nat)
    requires n <= |prefix| && n <= |completion| && k <= n
    requires k > 0 ==> PrefixOverlapAt(prefix, completion, k)
    requires forall j :: k < j <= n ==> !PrefixOverlapAt(prefix, completion, j)
    ensures LongestPrefixOverlap(prefix, completion, n) == k
  {
    if n > k {
      LongestPrefixOverlapIs(prefix, completion, n - 1, k);
    }
  }

  lemma {:induction false} LongestSuffixOverlapIs(suffix: string, completion: string, n: nat, k: nat)
    requires n <= |suffix| && n <= |completion| && k <= n
    requires k > 0 ==> SuffixOverlapAt(suffix, completion, k)
    requires forall j :: k < j <= n ==> !SuffixOverlapAt(suffix, completion, j)
    ensures LongestSuffixOverlap(suffix, completion, n) == k
  {
    if n > k {
      LongestSuffixOverlapIs(suffix, completion, n - 1, k);
    }
  }

  function PrefixOverlapCap(prefix: string, completion: string): nat {
    Min(Min(|prefix|, |completion|), MaxPrefixOverlap)
  }

  function SuffixOverlapCap(suffix: string, completion: string): nat {
    Min(Min(|suffix|, |completion|), MaxSuffixOverlap)
  }

  /** How many leading characters of `completion` repeat the end of
      `prefix`: the longest such run within the cap, 0 when there is none. */
  function PrefixOverlap(prefix: string, completion: string): (k: nat)
    ensures k <= PrefixOverlapCap(prefix, completion)
    ensures k > 0 ==> PrefixOverlapAt(prefix, completion, k)
    ensures forall j :: k < j <= PrefixOverlapCap(prefix, completion) ==> !PrefixOverlapAt(prefix, completion, j)
  {
    LongestPrefixOverlap(prefix, completion, PrefixOverlapCap(prefix, completion))
  }

  /** How many trailing characters of `completion` repeat the start of
      `suffix`: the longest such run within the cap, 0 when there is none. */
  function SuffixOverlap(suffix: string, completion: string): (k: nat)
    ensures k <= SuffixOverlapCap(suffix, completion)
    ensures k > 0 ==> SuffixOverlapAt(suffix, completion, k)
    ensures forall j :: k < j <= SuffixOverlapCap(suffix, completion) ==> !SuffixOverlapAt(suffix, completion, j)
  {
    LongestSuffixOverlap(suffix, completion, SuffixOverlapCap(suffix, completion))
  }

  /** Drops the longest leading part of `completion`, of at most 100
      characters, that repeats the end of `prefix`; scans from the longest
      candidate down and stops at the first match. */
  method TrimRedundantPrefix(completion: string, prefix: string) returns (r: string)
    ensures r == completion[PrefixOverlap(prefix, completion)..]
    ensures var k := |completion| - |r|;
      && r == completion[k..]
      && k <= MaxPrefixOverlap && k <= |prefix|
      && (k > 0 ==> prefix[|prefix| - k..] == completion[..k])
      && forall j :: k < j <= PrefixOverlapCap(prefix, completion) ==> !PrefixOverlapAt(prefix, completion, j)
  {
    var max := PrefixOverlapCap(prefix, completion);
    r := completion;
    var count := max;
    ghost var k := 0;
    // Every index of a character sequence is a character boundary, so the
    // source's `is_char_boundary` checks always pass here.
    while count >= 1
      invariant 0 <= count <= max
      invariant r == completion
      invariant forall j :: count < j <= max ==> !PrefixOverlapAt(prefix, completion, j)
    {
      var startInPrefix := |prefix| - count;
      if prefix[startInPrefix..] == r[..count] {
        r := r[count..];
        k := count;
        break;
      }
      count := count - 1;
    }
    LongestPrefixOverlapIs(prefix, completion, max, k);
  }

  /** Drops the longest trailing part of `completion`, of at most 80
      characters, that repeats the start of `suffix`. */
  method TrimRedundantSuffix(completion: string, suffix: string) returns (r: string)
    ensures r == completion[..|completion| - SuffixOverlap(suffix, completion)]
    ensures var k := |completion| - |r|;
      && r == completion[..|r|]
      && k <= MaxSuffixOverlap && k <= |suffix|
      && (k > 0 ==> completion[|r|..] == suffix[..k])
      && forall j :: k < j <= SuffixOverlapCap(suffix, completion) ==> !SuffixOverlapAt(suffix, completion, j)
  {
    var max := SuffixOverlapCap(suffix, completion);
    r := completion;
    var count := max;
    ghost var k := 0;
    while count >= 1
      invariant 0 <= count <= max
      invariant r == completion
      invariant forall j :: count < j <= max ==> !SuffixOverlapAt(suffix, completion, j)
    {
      var endInCompletion := |r| - count;
      if r[endInCompletion..] == suffix[..count] {
        r := r[..endInCompletion];
        k := count;
        break;
      }
      count := count - 1;
    }
    LongestSuffixOverlapIs(suffix, completion, max, k);
  }

  /** The pure composition of the cleaning steps: byte-order marks always;
      in chat mode also the markdown markers and both overlaps. */
  function CleanCompletion(raw: string, prefix: string, suffix: string, fim: bool): string {
    var c := TrimByteOrderMarks(raw);
    if fim then c
    else
      var stripped := StripMarkdownCodeBlocks(c);
      var afterPrefix := stripped[PrefixOverlap(prefix, stripped)..];
      afterPrefix[..|afterPrefix| - SuffixOverlap(suffix, afterPrefix)]
  }

  /** In chat mode the cleaned text is a contiguous part of the de-fenced
      response: at most 100 characters are cut from its start and at most 80
      from its end. */
  lemma CleanIsSliceOfStripped(raw: string, prefix: string, suffix: string)
    ensures var stripped := StripMarkdownCodeBlocks(TrimByteOrderMarks(raw));
      var i := PrefixOverlap(prefix, stripped);
      var r := CleanCompletion(raw, prefix, suffix, false);
      && i <= MaxPrefixOverlap && i + |r| <= |stripped| && |stripped| - (i + |r|) <= MaxSuffixOverlap
      && stripped[i..i + |r|] == r
  {
    var stripped := StripMarkdownCodeBlocks(TrimByteOrderMarks(raw));
    OverlapCutIsSlice(stripped, prefix, suffix);
  }

  /** Cutting the prefix overlap and then the suffix overlap leaves a
      contiguous part of the text. */
  lemma OverlapCutIsSlice(stripped: string, prefix: string, suffix: string)
    ensures var i := PrefixOverlap(prefix, stripped);
      var afterPrefix := stripped[i..];
      var r := afterPrefix[..|afterPrefix| - SuffixOverlap(suffix, afterPrefix)];
      && i <= MaxPrefixOverlap && i + |r| <= |stripped| && |stripped| - (i + |r|) <= MaxSuffixOverlap
      && stripped[i..i + |r|] == r
  {
    var i := PrefixOverlap(prefix, stripped);
    var afterPrefix := stripped[i..];
    var r := afterPrefix[..|afterPrefix| - SuffixOverlap(suffix, afterPrefix)];
    assert stripped[i..i + |r|] == r;
  }

  /** The cleanup a refresh task applies to the received text, step by
      step: byte-order marks first, then, for a chat model, the markdown
      markers and the two overlaps. */
  method Clean(raw: string, prefix: string, suffix: string, fim: bool) returns (completion: string)
    ensures completion == CleanCompletion(raw, prefix, suffix, fim)
  {
    completion := TrimByteOrderMarks(raw);
    if !fim {
      completion := StripMarkdownCodeBlocks(completion);
      completion := TrimRedundantPrefix(completion, prefix);
      completion := TrimRedundantSuffix(completion, suffix);
    }
  }

  /** A FIM response is taken verbatim apart from its byte-order marks. */
  lemma CleanFimKeepsText(raw: string, prefix: string, suffix: string)
    requires forall k :: 0 <= k < |raw| ==> !IsByteOrderMark(raw[k])
    ensures CleanCompletion(raw, prefix, suffix, true) == raw
  {
    TrimWhereNoop(raw, IsByteOrderMark);
  }

  /** Text whose outer characters are neither whitespace nor byte-order
      marks, and which does not open with a backtick. */
  predicate PlainText(s: string) {
    && |s| > 0
    && !IsWhitespace(s[0]) && !IsByteOrderMark(s[0]) && s[0] != '`'
    && !IsWhitespace(s[|s| - 1]) && !IsByteOrderMark(s[|s| - 1])
  }

  /** The overlap trim is not idempotent: a completion that repeats a short
      plain prefix twice is cleaned to one copy, and cleaning that copy again
      against the same prefix leaves nothing. */
  lemma OverlapTrimNotIdempotent(prefix: string)
    requires PlainText(prefix) && |prefix| <= MaxPrefixOverlap
    ensures CleanCompletion(prefix + prefix, prefix, "", false) == prefix
    ensures CleanCompletion(prefix, prefix, "", false) == []
  {
    var twice := prefix + prefix;
    assert twice[0] == prefix[0] && twice[|twice| - 1] == prefix[|prefix| - 1];
    assert twice[..|prefix|] == prefix && twice[|prefix|..] == prefix;
    CleanPlainAfterPrefix(twice, prefix);
    CleanPlainAfterPrefix(prefix, prefix);
  }

  /** Cleaning plain text, against an empty suffix, when it starts with the
      whole of a prefix within the cap. */
  lemma CleanPlainAfterPrefix(raw: string, prefix: string)
    requires PlainText(raw)
    requires |prefix| <= |raw| && |prefix| <= MaxPrefixOverlap && PrefixOverlapAt(prefix, raw, |prefix|)
    ensures CleanCompletion(raw, prefix, "", false) == raw[|prefix|..]
  {
    PlainTextIsKept(raw);
    WholePrefixOverlap(prefix, raw);
    NoSuffixOverlap(raw[|prefix|..]);
  }

  /** A prefix, within the cap, that the completion repeats in full is the
      overlap. */
  lemma WholePrefixOverlap(prefix: string, completion: string)
    requires |prefix| <= |completion| && |prefix| <= MaxPrefixOverlap
    requires PrefixOverlapAt(prefix, completion, |prefix|)
    ensures PrefixOverlap(prefix, completion) == |prefix|
  {
    assert PrefixOverlapCap(prefix, completion) == |prefix|;
    LongestPrefixOverlapIs(prefix, completion, |prefix|, |prefix|);
  }

  /** An empty suffix never overlaps. */
  lemma NoSuffixOverlap(completion: string)
    ensures SuffixOverlap("", completion) == 0
  {
  }

  /** Plain text passes the byte-order-mark and markdown steps unchanged. */
  lemma PlainTextIsKept(raw: string)
    requires PlainText(raw)
    ensures StripMarkdownCodeBlocks(TrimByteOrderMarks(raw)) == raw
  {
    TrimWhereNoop(raw, IsByteOrderMark);
    TrimWhereNoop(raw, IsWhitespace);
    StripPlainText(raw);
  }

  /** A completion that repeats the prefix's last line, newline included,
      keeps only what follows that newline. */
  lemma RepeatedImportIsTrimmed()
    ensures var prefix := "import numpy as np\n";
      var completion := "import numpy as np\nprint(np)";
      completion[PrefixOverlap(prefix, completion)..] == "print(np)"
  {
    var prefix := "import numpy as np\n";
    var completion := "import numpy as np\nprint(np)";
    assert PrefixOverlapCap(prefix, completion) == |prefix|;
    assert PrefixOverlapAt(prefix, completion, |prefix|);
  }
}
