/** The provider's request side: the text window clipped around the cursor,
    the workspace summary, the choice between a fill-in-the-middle (FIM)
    prompt and a chat prompt, and the construction of both
    (crates/ollama/src/edit_prediction_completion_provider.rs). */
module Prompt {
  import opened Wrappers
  import opened Text

  /** Context budgets around the cursor. The source counts bytes of UTF-8;
      here they count characters. */
  const MaxPrefixLen: nat := 2000
  const MaxSuffixLen: nat := 500

  /** Line caps of the chat prompt. */
  const MaxPrefixLines: nat := 15
  const MaxSuffixLines: nat := 3

  datatype PromptContext = PromptContext(prefix: string, suffix: string, workspaceSummary: string)

  datatype ChatMessage = System(content: string) | User(content: string) | Assistant(content: string)

  /** `cursor.saturating_sub(MAX_PREFIX_BYTES)`. */
  function WindowStart(cursor: nat): nat {
    if cursor >= MaxPrefixLen then cursor - MaxPrefixLen else 0
  }

  /** `(cursor + MAX_SUFFIX_BYTES).min(len)`. */
  function WindowEnd(len: nat, cursor: nat): nat {
    if cursor + MaxSuffixLen <= len then cursor + MaxSuffixLen else len
  }

  /** The key:value lines describing the file being edited. */
  function SummaryLines(path: Option<string>, language: string, tabSize: nat, insertSpaces: bool): seq<string> {
    ["File: " + path.GetOr("<untitled>"),
     "Language: " + language,
     "Tab size: " + NatToDecimal(tabSize),
     "Insert spaces: " + (if insertSpaces then "true" else "false")]
  }

  /** The workspace summary: its lines, each written with `writeln!`. */
  function WorkspaceSummary(path: Option<string>, language: string, tabSize: nat, insertSpaces: bool): string {
    Terminated(SummaryLines(path, language, tabSize, insertSpaces))
  }

  /** The prompt context for a cursor at offset `cursor` of `text`: at most
      2000 characters before the cursor and 500 after it, as many as there
      are up to those budgets, plus the workspace summary. The language, the
      indentation settings and the file path are the buffer's answers,
      passed in. */
  function CollectContext(text: string, cursor: nat, path: Option<string>, language: Option<string>,
                          tabSize: nat, hardTabs: bool): (ctx: PromptContext)
    requires cursor <= |text|
    ensures |ctx.prefix| == Min(cursor, MaxPrefixLen) && EndsWith(text[..cursor], ctx.prefix)
    ensures |ctx.suffix| == Min(|text| - cursor, MaxSuffixLen) && StartsWith(text[cursor..], ctx.suffix)
    ensures ctx.prefix + ctx.suffix == text[WindowStart(cursor)..WindowEnd(|text|, cursor)]
    ensures ctx.workspaceSummary == WorkspaceSummary(path, language.GetOr("unknown"), tabSize, !hardTabs)
  {
    var start := WindowStart(cursor);
    var end := WindowEnd(|text|, cursor);
    assert text[start..cursor] + text[cursor..end] == text[start..end];
    PromptContext(text[start..cursor], text[cursor..end],
                  WorkspaceSummary(path, language.GetOr("unknown"), tabSize, !hardTabs))
  }

  /** The first of `lines` that starts with `p` (Rust's `Iterator::find`). */
  function FindLine(lines: seq<string>, p: string): (r: Option<string>)
    ensures r.Some? ==> r.value in lines && StartsWith(r.value, p)
    ensures r.None? <==> forall i :: 0 <= i < |lines| ==> !StartsWith(lines[i], p)
    ensures r.Some? ==> exists i :: 0 <= i < |lines| && lines[i] == r.value && FirstMatch(lines, p, i)
  {
    if |lines| == 0 then None
    else if StartsWith(lines[0], p) then
      assert FirstMatch(lines, p, 0);
      Some(lines[0])
    else
      var r := FindLine(lines[1..], p);
      assert forall i :: 1 <= i < |lines| ==> lines[i] == lines[1..][i - 1];
      if r.Some? then
        var i :| 0 <= i < |lines[1..]| && lines[1..][i] == r.value && FirstMatch(lines[1..], p, i);
        assert FirstMatch(lines, p, i + 1);
        r
      else r
  }

  /** Line `i` is the first of `lines` that starts with `p`. */
  predicate FirstMatch(lines: seq<string>, p: string, i: nat)
    requires i < |lines|
  {
    StartsWith(lines[i], p) && forall j :: 0 <= j < i ==> !StartsWith(lines[j], p)
  }

  /** The language named by the summary's first "Language:" line, when that
      line carries the label "Language: ", and "unknown" otherwise. */
  function SummaryLanguage(summary: string): string {
    match FindLine(Lines(summary), "Language:")
    case Some(line) => if StartsWith(line, "Language: ") then line[|"Language: "|..] else "unknown"
    case None => "unknown"
  }

  /** The summary's language line gives back the language it was written with. */
  lemma SummaryLanguageRoundTrip(path: Option<string>, language: string, tabSize: nat, insertSpaces: bool)
    requires NoNewline(path.GetOr("<untitled>")) && NoNewline(language)
    ensures SummaryLanguage(WorkspaceSummary(path, language, tabSize, insertSpaces)) == language
  {
    var ls := SummaryLines(path, language, tabSize, insertSpaces);
    SummaryLinesAreOneLineEach(path, language, tabSize, insertSpaces);
    LinesOfTerminated(ls);
    assert !StartsWith(ls[0], "Language:") by {
      assert ls[0][0] == 'F';
    }
    assert ls[1..][0] == ls[1];
    assert StartsWith(ls[1], "Language: ") && StartsWith(ls[1], "Language:");
    assert FindLine(ls, "Language:") == Some(ls[1]);
    assert ls[1][|"Language: "|..] == language;
  }

  lemma SummaryLinesAreOneLineEach(path: Option<string>, language: string, tabSize: nat, insertSpaces: bool)
    requires NoNewline(path.GetOr("<untitled>")) && NoNewline(language)
    ensures AllOneLine(SummaryLines(path, language, tabSize, insertSpaces))
  {
    var digits := NatToDecimal(tabSize);
    assert NoNewline(digits) by {
      assert forall k :: 0 <= k < |digits| ==> IsDigit(digits[k]);
    }
    NoNewlineConcat("File: ", path.GetOr("<untitled>"));
    NoNewlineConcat("Language: ", language);
    NoNewlineConcat("Tab size: ", digits);
    NoNewlineConcat("Insert spaces: ", if insertSpaces then "true" else "false");
  }

  /** The language read from any summary is a single line. */
  lemma SummaryLanguageIsOneLine(summary: string)
    ensures NoNewline(SummaryLanguage(summary))
  {
    var ls := Lines(summary);
    LinesFacts(summary);
    var found := FindLine(ls, "Language:");
    if found.Some? && StartsWith(found.value, "Language: ") {
      assert NoNewline(found.value);
      DropKeepsNoNewline(found.value, |"Language: "|);
    }
  }

  lemma DropKeepsNoNewline(s: string, n: nat)
    requires NoNewline(s) && n <= |s|
    ensures NoNewline(s[n..])
  {
    assert forall k :: 0 <= k < |s| - n ==> s[n..][k] == s[k + n];
  }

  /** A model name is FIM-capable when, lower-cased, it contains one of the
      six family names. */
  predicate SupportsFim(model: string) {
    var lower := ToLowerAscii(model);
    Contains(lower, "codellama") || Contains(lower, "code-llama") || Contains(lower, "deepseek")
    || Contains(lower, "starcoder") || Contains(lower, "codegemma") || Contains(lower, "granite-code")
  }

  /** FIM support does not depend on the case of the model name. */
  lemma SupportsFimIgnoresCase(model: string)
    ensures SupportsFim(ToLowerAscii(model)) == SupportsFim(model)
  {
    ToLowerAsciiIdempotent(model);
  }

  /** The four FIM delimiter dialects. */
  datatype FimFormat = CodeLlamaFim | DeepSeekFim | StarCoderFim | GenericFim

  datatype Delimiters = Delimiters(open: string, hole: string, close: string)

  /** The dialect for a model name: the first family, in this order, whose
      name occurs in the model name as it is written (case-sensitively). */
  function FimFormatFor(model: string): (f: FimFormat)
    ensures f == CodeLlamaFim <==> Contains(model, "codellama") || Contains(model, "code-llama")
    ensures f == DeepSeekFim ==> Contains(model, "deepseek")
    ensures f == StarCoderFim ==> Contains(model, "starcoder") && !Contains(model, "deepseek")
    ensures f == GenericFim <==>
      !Contains(model, "codellama") && !Contains(model, "code-llama")
      && !Contains(model, "deepseek") && !Contains(model, "starcoder")
  {
    if Contains(model, "codellama") || Contains(model, "code-llama") then CodeLlamaFim
    else if Contains(model, "deepseek") then DeepSeekFim
    else if Contains(model, "starcoder") then StarCoderFim
    else GenericFim
  }

  function FimDelimiters(f: FimFormat): Delimiters {
    match f
    case CodeLlamaFim => Delimiters("<PRE> ", " <SUF>", " <MID>")
    case DeepSeekFim =>
      Delimiters("<\U{FF5C}fim\U{2581}begin\U{FF5C}>", "<\U{FF5C}fim\U{2581}hole\U{FF5C}>",
                 "<\U{FF5C}fim\U{2581}end\U{FF5C}>")
    case StarCoderFim => Delimiters("<fim_prefix>", "<fim_suffix>", "<fim_middle>")
    case GenericFim => Delimiters("<|fim_prefix|>", "<|fim_suffix|>", "<|fim_middle|>")
  }

  /** The FIM prompt: one user message holding the dialect's opening
      delimiter, the prefix verbatim, the hole delimiter, the suffix
      verbatim and the closing delimiter. */
  function BuildFimMessages(ctx: PromptContext, model: string): (r: seq<ChatMessage>)
    ensures |r| == 1 && r[0].User?
    ensures var d := FimDelimiters(FimFormatFor(model));
      Layout(r[0].content, d.open, ctx.prefix, d.hole, ctx.suffix, d.close)
  {
    var d := FimDelimiters(FimFormatFor(model));
    FiveParts(d.open, ctx.prefix, d.hole, ctx.suffix, d.close);
    [User(d.open + ctx.prefix + d.hole + ctx.suffix + d.close)]
  }

  /** `s` is `a`, `b`, `c`, `d` and `e` one after the other. */
  predicate Layout(s: string, a: string, b: string, c: string, d: string, e: string) {
    var i, j, k := |a| + |b|, |a| + |b| + |c|, |a| + |b| + |c| + |d|;
    && |s| == k + |e|
    && s[..|a|] == a && s[|a|..i] == b && s[i..j] == c && s[j..k] == d && s[k..] == e
  }

  lemma FiveParts(a: string, b: string, c: string, d: string, e: string)
    ensures Layout(a + b + c + d + e, a, b, c, d, e)
  {
  }

  /** Every dialect other than the generic one is chosen only for a model
      that `SupportsFim` accepts: the case-sensitive dispatch never picks a
      family the case-insensitive check missed. */
  lemma DialectImpliesFimSupport(model: string)
    requires FimFormatFor(model) != GenericFim
    ensures SupportsFim(model)
  {
    var lower := ToLowerAscii(model);
    assert ToLowerAscii("codellama") == "codellama";
    assert ToLowerAscii("code-llama") == "code-llama";
    assert ToLowerAscii("deepseek") == "deepseek";
    assert ToLowerAscii("starcoder") == "starcoder";
    if Contains(model, "codellama") {
      ContainsLowered(model, "codellama");
    } else if Contains(model, "code-llama") {
      ContainsLowered(model, "code-llama");
    } else if Contains(model, "deepseek") {
      ContainsLowered(model, "deepseek");
    } else {
      ContainsLowered(model, "starcoder");
    }
  }

  const SystemPrompt := "You are a code " + "autocompletion engine. " + "Generate ONLY the code "
    + "to insert at the " + "cursor position. " + "Do not include any " + "explanations, comments "
    + "about your completion, " + "or markdown formatting. " + "Do not repeat " + "existing code. "
    + "Focus on completing " + "the current line or " + "block based on context."
  const BeforeCursorHeading := "Code context before cursor:"
  const CursorMarker := "\U{2588}  <-- Complete from here"
  const AfterCursorHeading := "Code context after cursor:"
  const ClosingInstruction := "Generate only the code " + "that should be inserted " + "at the cursor position."

  function Reverse<T>(s: seq<T>): (r: seq<T>)
    ensures |r| == |s| && forall i :: 0 <= i < |s| ==> r[i] == s[|s| - 1 - i]
  {
    seq(|s|, i requires 0 <= i < |s| => s[|s| - 1 - i])
  }

  /** The first `n` elements, or all of them when there are fewer (`take(n)`). */
  function Take<T>(s: seq<T>, n: nat): seq<T> {
    s[..Min(n, |s|)]
  }

  /** The last `n` lines of `text`, in their original order
      (`lines().rev().take(n)`, reversed back). */
  function LastLines(text: string, n: nat): (r: seq<string>)
    ensures var ls := Lines(text); |r| == Min(n, |ls|) && r == ls[|ls| - |r|..]
  {
    var ls := Lines(text);
    ReverseTakeReverse(ls, n);
    Reverse(Take(Reverse(ls), n))
  }

  /** Taking the first `n` of the reversed sequence and reversing them back
      gives the last `n`. */
  lemma {:induction false} ReverseTakeReverse<T>(s: seq<T>, n: nat)
    ensures Reverse(Take(Reverse(s), n)) == s[|s| - Min(n, |s|)..]
  {
    var r := Reverse(Take(Reverse(s), n));
    var tail := s[|s| - Min(n, |s|)..];
    forall i | 0 <= i < |tail|
      ensures r[i] == tail[i]
    {
      ReverseTakeReverseAt(s, n, i);
    }
  }

  lemma ReverseTakeReverseAt<T>(s: seq<T>, n: nat, i: nat)
    requires i < Min(n, |s|)
    ensures |Reverse(Take(Reverse(s), n))| == Min(n, |s|)
    ensures Reverse(Take(Reverse(s), n))[i] == s[|s| - Min(n, |s|) + i]
  {
    var m := Min(n, |s|);
    var t := Take(Reverse(s), n);
    assert t[m - 1 - i] == Reverse(s)[m - 1 - i];
  }

  /** Each line followed by '\n': what one `writeln!` per line appends. */
  function Terminated(lines: seq<string>): string {
    if |lines| == 0 then "" else lines[0] + "\n" + Terminated(lines[1..])
  }

  lemma {:induction false} TerminatedAppend(a: seq<string>, b: seq<string>)
    ensures Terminated(a + b) == Terminated(a) + Terminated(b)
    decreases |a|
  {
    if |a| > 0 {
      assert (a + b)[1..] == a[1..] + b;
      TerminatedAppend(a[1..], b);
    } else {
      assert a + b == b;
    }
  }

  /** Newline-free lines, each terminated, read back as those lines. */
  lemma {:induction false} LinesOfTerminated(lines: seq<string>)
    requires forall k :: 0 <= k < |lines| ==> NoNewline(lines[k])
    ensures Lines(Terminated(lines)) == lines
    decreases |lines|
  {
    if |lines| > 0 {
      LinesOfTerminated(lines[1..]);
      LinesCons(lines[0], Terminated(lines[1..]));
    }
  }

  /** The "before cursor" section: the heading and the last 15 prefix lines,
      present only when there is at least one prefix line. */
  function BeforeSection(ctx: PromptContext): seq<string> {
    var before := LastLines(ctx.prefix, MaxPrefixLines);
    if |before| > 0 then ["", BeforeCursorHeading] + before else []
  }

  /** The "after cursor" section: the heading and the first 3 suffix lines,
      present only when there is a suffix line and the suffix is not blank. */
  function AfterSection(ctx: PromptContext): seq<string> {
    var after := Take(Lines(ctx.suffix), MaxSuffixLines);
    if |after| > 0 && Trim(ctx.suffix) != [] then ["", AfterCursorHeading] + after else []
  }

  /** The lines of the chat prompt's user message, in order. */
  function ChatPromptLines(ctx: PromptContext): seq<string> {
    ["Language: " + SummaryLanguage(ctx.workspaceSummary)]
    + BeforeSection(ctx) + [CursorMarker] + AfterSection(ctx) + ["", ClosingInstruction]
  }

  /** The messages sent for a context: the FIM prompt for a FIM-capable
      model, otherwise exactly a system message and a user message. */
  function RequestMessages(ctx: PromptContext, model: string): (r: seq<ChatMessage>)
    ensures SupportsFim(model) ==> r == BuildFimMessages(ctx, model)
    ensures !SupportsFim(model) ==> |r| == 2 && r[0] == System(SystemPrompt) && r[1].User?
  {
    if SupportsFim(model) then BuildFimMessages(ctx, model)
    else [System(SystemPrompt), User(Terminated(ChatPromptLines(ctx)))]
  }

  /** The chat user message, read back as lines, is exactly the prompt's
      lines: the language, at most the last 15 prefix lines after their
      heading, the cursor marker, at most the first 3 suffix lines after
      theirs, and the closing instruction. */
  lemma ChatPromptReadsBack(ctx: PromptContext, model: string)
    requires !SupportsFim(model)
    ensures Lines(RequestMessages(ctx, model)[1].content) == ChatPromptLines(ctx)
    ensures |LastLines(ctx.prefix, MaxPrefixLines)| <= MaxPrefixLines
    ensures |Take(Lines(ctx.suffix), MaxSuffixLines)| <= MaxSuffixLines
  {
    var lang := SummaryLanguage(ctx.workspaceSummary);
    SummaryLanguageIsOneLine(ctx.workspaceSummary);
    assert NoNewline("Language: " + lang) by {
      assert forall k :: 10 <= k < |"Language: " + lang| ==> ("Language: " + lang)[k] == lang[k - 10];
    }
    SectionsAreOneLineEach(ctx);
    FixedLinesAreOneLineEach();
    var ls := ChatPromptLines(ctx);
    assert AllOneLine(ls) by {
      AllOneLineAppend(["Language: " + lang], BeforeSection(ctx));
      AllOneLineAppend(["Language: " + lang] + BeforeSection(ctx), [CursorMarker]);
      AllOneLineAppend(["Language: " + lang] + BeforeSection(ctx) + [CursorMarker], AfterSection(ctx));
      AllOneLineAppend(["Language: " + lang] + BeforeSection(ctx) + [CursorMarker] + AfterSection(ctx),
                       ["", ClosingInstruction]);
    }
    LinesOfTerminated(ls);
  }

  predicate AllOneLine(lines: seq<string>) {
    forall k :: 0 <= k < |lines| ==> NoNewline(lines[k])
  }

  lemma AllOneLineAppend(a: seq<string>, b: seq<string>)
    requires AllOneLine(a) && AllOneLine(b)
    ensures AllOneLine(a + b)
  {
    assert forall k :: |a| <= k < |a + b| ==> (a + b)[k] == b[k - |a|];
  }

  lemma NoNewlineConcat(a: string, b: string)
    requires NoNewline(a) && NoNewline(b)
    ensures NoNewline(a + b)
  {
    assert forall k :: |a| <= k < |a + b| ==> (a + b)[k] == b[k - |a|];
  }

  lemma FixedLinesAreOneLineEach()
    ensures AllOneLine([CursorMarker]) && AllOneLine(["", ClosingInstruction])
    ensures AllOneLine(["", BeforeCursorHeading]) && AllOneLine(["", AfterCursorHeading])
  {
    var a, b, c := "Generate only the code ", "that should be inserted ", "at the cursor position.";
    assert NoNewline(a) && NoNewline(b) && NoNewline(c);
    assert ClosingInstruction == a + b + c;
    NoNewlineConcat(a, b);
    NoNewlineConcat(a + b, c);
  }

  lemma SectionsAreOneLineEach(ctx: PromptContext)
    ensures AllOneLine(BeforeSection(ctx)) && AllOneLine(AfterSection(ctx))
  {
    LinesFacts(ctx.prefix);
    LinesFacts(ctx.suffix);
    var before := LastLines(ctx.prefix, MaxPrefixLines);
    var pl := Lines(ctx.prefix);
    assert forall k :: 0 <= k < |before| ==> before[k] == pl[|pl| - |before| + k];
    assert AllOneLine(before);
    FixedLinesAreOneLineEach();
    if |before| > 0 {
      AllOneLineAppend(["", BeforeCursorHeading], before);
    }
    var after := Take(Lines(ctx.suffix), MaxSuffixLines);
    assert AllOneLine(after);
    if |after| > 0 && Trim(ctx.suffix) != [] {
      AllOneLineAppend(["", AfterCursorHeading], after);
    }
  }

  /** The "after cursor" section appears exactly when the suffix holds a
      character that is not whitespace. */
  lemma AfterSectionPresence(ctx: PromptContext)
    ensures AfterSection(ctx) != [] <==> exists k :: 0 <= k < |ctx.suffix| && !IsWhitespace(ctx.suffix[k])
  {
    TrimEmptyIffBlank(ctx.suffix);
    LinesFacts(ctx.suffix);
  }

  /** The "before cursor" section appears exactly when the prefix is not empty. */
  lemma BeforeSectionPresence(ctx: PromptContext)
    ensures BeforeSection(ctx) != [] <==> ctx.prefix != []
  {
    LinesFacts(ctx.prefix);
  }

  /** Appends each of `lines` followed by '\n' to `content`, one `writeln!`
      per line. */
  method AppendLines(content: string, ghost written: seq<string>, lines: seq<string>) returns (r: string)
    requires content == Terminated(written)
    ensures r == Terminated(written + lines)
  {
    r := content;
    assert written + lines[..0] == written;
    for i := 0 to |lines|
      invariant r == Terminated(written + lines[..i])
    {
      TerminatedAppend(written + lines[..i], [lines[i]]);
      assert written + lines[..i + 1] == written + lines[..i] + [lines[i]];
      r := r + lines[i] + "\n";
    }
    assert lines[..|lines|] == lines;
  }

  /** Builds the request messages: the FIM prompt for a FIM-capable model,
      otherwise the system message and the chat prompt, written section by
      section into a growing buffer. */
  method BuildMessages(ctx: PromptContext, model: string) returns (messages: seq<ChatMessage>)
    ensures messages == RequestMessages(ctx, model)
  {
    if SupportsFim(model) {
      return BuildFimMessages(ctx, model);
    }
    var system := System(SystemPrompt);
    var header := ["Language: " + SummaryLanguage(ctx.workspaceSummary)];
    var content := AppendLines("", [], header);
    ghost var written := header;

    var prefixLines := LastLines(ctx.prefix, MaxPrefixLines);
    if |prefixLines| > 0 {
      content := AppendLines(content, written, ["", BeforeCursorHeading] + prefixLines);
      written := written + (["", BeforeCursorHeading] + prefixLines);
    }
    assert written == header + BeforeSection(ctx);

    content := AppendLines(content, written, [CursorMarker]);
    written := written + [CursorMarker];

    var suffixLines := Take(Lines(ctx.suffix), MaxSuffixLines);
    if |suffixLines| > 0 && Trim(ctx.suffix) != [] {
      content := AppendLines(content, written, ["", AfterCursorHeading] + suffixLines);
      written := written + (["", AfterCursorHeading] + suffixLines);
    }
    assert written == header + BeforeSection(ctx) + [CursorMarker] + AfterSection(ctx);

    content := AppendLines(content, written, ["", ClosingInstruction]);
    written := written + ["", ClosingInstruction];
    assert written == ChatPromptLines(ctx);

    messages := [system, User(content)];
  }
}
