# Ollama edit predictions and antialiasing preferences, in Dafny

This project models two pieces of an editor.

**The Ollama inline-completion provider** (`crates/ollama/src/edit_prediction_completion_provider.rs`):

- It clips a text window around the cursor: 2000 characters before, 500 after.
- It builds the request messages. A fill-in-the-middle (FIM) model gets one of four delimiter templates. Any other model gets a chat prompt of a system message plus a user message. The user message holds the language, the last 15 lines before the cursor, a cursor marker and the first 3 lines after it.
- It reads the streamed response.
- It cleans the completion: it removes byte-order marks, strips markdown fences or inline backticks, and trims text that repeats the surrounding prefix or suffix.
- It keeps the suggestion state: the prediction, the buffer and cursor it is keyed by, and the pending refresh.

**The antialiasing preferences** (`crates/gpui/src/render_prefs.rs`):

- It parses mode aliases and clamps the reduced level count to [2, 8].
- It overlays environment overrides and then an optional configuration record on the buffer and UI profiles.

Modules:

- `Wrappers`: the option type.
- `Text`: the string primitives the source takes from Rust's standard library.
  - `Trim` uses Unicode White_Space.
  - `ToLowerAscii`.
  - `Contains`.
  - `Split` and `Lines` on `'\n'`.
  - Decimal digits.
- `Prompt`: `collect_context`, `build_messages`, `build_fim_messages` and `supports_fim`.
- `PostProcess`: `strip_markdown_code_blocks`, `trim_redundant_prefix`, `trim_redundant_suffix`, and the cleanup chain of `refresh`.
- `Provider`: the environment-derived configuration, the stream reader, and the `OllamaCompletionProvider` class.
  - Its fields are the ones the source mutates.
  - `refresh` is split into two methods. `Refresh` is the synchronous start, which returns the spawned task. `CompleteRefresh` is that task's end, which receives the response stream.
  - A pending refresh is a task token. Replacing it cancels the earlier task, because a dropped task never runs its commit. So a late commit with an old token changes nothing.
- `RenderPrefs`: the `AntialiasingProfile` class and the `AntialiasingPrefs` class.
  - Their methods are proved against value-level functions, `WithEnvOverrides` and `WithConfig`.
  - `LoadPrefs` applies the environment first and the configuration second.

The environment is an input map from variable names to values. The configuration file is an optional parsed record. The HTTP response is an input sequence of stream items.

## Model

| member | source | states |
|---|---|---|
| Prompt.CollectContext | crates/ollama/src/edit_prediction_completion_provider.rs:79-122 | the prefix is the last min(cursor, 2000) characters before the cursor, and the suffix is the first min(len - cursor, 500) after it; together they are exactly text[max(0, cursor-2000) .. min(len, cursor+500)]; the summary has the lines File (the path or `<untitled>`), Language (or `unknown`), Tab size and Insert spaces (the negation of hard tabs), each ended by a newline |
| Prompt.SummaryLanguageRoundTrip | crates/ollama/src/edit_prediction_completion_provider.rs:141-150 | when neither the path nor the language holds a line break, reading the `Language: ` line back out of a summary built by collect_context gives the language it was built with |
| Prompt.SummaryLinesAreOneLineEach | crates/ollama/src/edit_prediction_completion_provider.rs:105-117 | every summary line is one line when the path and language have no line break |
| Prompt.SummaryLanguageIsOneLine | crates/ollama/src/edit_prediction_completion_provider.rs:141-150 | the language taken from any summary holds no line break, so it adds exactly one line to the prompt |
| Prompt.SummaryLanguage | crates/ollama/src/edit_prediction_completion_provider.rs:141-150 | computes the text after `Language: ` on the summary's first line starting with `Language:`, or `unknown` when there is no such line or it lacks the space |
| Prompt.FindLine | crates/ollama/src/edit_prediction_completion_provider.rs:146-147 | the result is the first line that starts with the searched prefix, and nothing exactly when no line does |
| Prompt.SupportsFim | crates/ollama/src/edit_prediction_completion_provider.rs:225-233 | holds exactly when the ASCII-lowercased name contains `codellama`, `code-llama`, `deepseek`, `starcoder`, `codegemma` or `granite-code` |
| Prompt.SupportsFimIgnoresCase | crates/ollama/src/edit_prediction_completion_provider.rs:225-233 | FIM support is decided on the ASCII-lowercased name, so lowercasing the name first never changes it |
| Prompt.DialectImpliesFimSupport | crates/ollama/src/edit_prediction_completion_provider.rs:196-233 | a name that selects the CodeLlama, DeepSeek or StarCoder template is also in the FIM allow-list |
| Prompt.FimFormatFor | crates/ollama/src/edit_prediction_completion_provider.rs:196-217 | the template is CodeLlama exactly when the name contains `codellama` or `code-llama` (case-sensitive); DeepSeek needs `deepseek`, StarCoder needs `starcoder` and no `deepseek`, and the generic template is chosen exactly when none of the four words occurs |
| Prompt.BuildFimMessages | crates/ollama/src/edit_prediction_completion_provider.rs:194-223 | exactly one user message, made of the selected template's opening delimiter, the prefix verbatim, the hole delimiter, the suffix verbatim and the closing delimiter; the templates are `<PRE> `, ` <SUF>`, ` <MID>` for CodeLlama, `<｜fim▁begin｜>`, `<｜fim▁hole｜>`, `<｜fim▁end｜>` (U+FF5C, U+2581) for DeepSeek, `<fim_prefix>`, `<fim_suffix>`, `<fim_middle>` for StarCoder and `<\|fim_prefix\|>`, `<\|fim_suffix\|>`, `<\|fim_middle\|>` otherwise |
| Prompt.ReverseTakeReverse | crates/ollama/src/edit_prediction_completion_provider.rs:153-161 | reversing, taking n and reversing back gives the last min(n, count) elements in their original order |
| Prompt.LastLines | crates/ollama/src/edit_prediction_completion_provider.rs:153-161 | the prefix lines shown are the last min(15, line count) lines of the prefix, in order |
| Prompt.RequestMessages | crates/ollama/src/edit_prediction_completion_provider.rs:126-192 | a FIM model gets the FIM messages; any other model gets exactly [System(the fixed instruction), User(...)] |
| Prompt.ChatPromptLines | crates/ollama/src/edit_prediction_completion_provider.rs:138-184 | computes the user message's lines: `Language: ` and the summary's language, the before-cursor section, the cursor marker, the after-cursor section, an empty line and the closing instruction |
| Prompt.BeforeSection | crates/ollama/src/edit_prediction_completion_provider.rs:152-167 | computes an empty line, the before-cursor heading and the last 15 prefix lines when the prefix has lines, and nothing otherwise |
| Prompt.AfterSection | crates/ollama/src/edit_prediction_completion_provider.rs:172-179 | computes an empty line, the after-cursor heading and the first 3 suffix lines when the suffix has lines and is not all whitespace, and nothing otherwise |
| Prompt.ChatPromptReadsBack | crates/ollama/src/edit_prediction_completion_provider.rs:138-184 | the user content splits back into Language, the before-cursor heading and at most 15 prefix lines, the cursor marker, the after-cursor heading and at most 3 suffix lines, and the closing instruction, in that order |
| Prompt.BeforeSectionPresence | crates/ollama/src/edit_prediction_completion_provider.rs:162-167 | the before-cursor section is present exactly when the prefix is not empty |
| Prompt.AfterSectionPresence | crates/ollama/src/edit_prediction_completion_provider.rs:173-179 | the after-cursor section is present exactly when the suffix holds a character that is not whitespace |
| Prompt.SectionsAreOneLineEach | crates/ollama/src/edit_prediction_completion_provider.rs:162-179 | every line written into either context section is a single line |
| Prompt.FixedLinesAreOneLineEach | crates/ollama/src/edit_prediction_completion_provider.rs:163-184 | the headings, the cursor marker and the closing instruction are single lines |
| Prompt.AppendLines | crates/ollama/src/edit_prediction_completion_provider.rs:164-166 | appending each line with its newline to a buffer of terminated lines gives the terminated concatenation |
| Prompt.BuildMessages | crates/ollama/src/edit_prediction_completion_provider.rs:126-192 | the buffer-appending construction returns exactly the request messages |
| Prompt.TerminatedAppend | crates/ollama/src/edit_prediction_completion_provider.rs:138-184 | writing two runs of lines one after the other is writing their concatenation |
| Prompt.LinesOfTerminated | crates/ollama/src/edit_prediction_completion_provider.rs:138-184 | newline-terminated single lines split back into exactly those lines |
| Text.TrimWhereFacts | crates/ollama/src/edit_prediction_completion_provider.rs:404 | a trim keeps a contiguous part of the input, drops only trimmed characters at either end, keeps none at its ends, and is empty exactly when every character is dropped |
| Text.TrimEmptyIffBlank | crates/ollama/src/edit_prediction_completion_provider.rs:347 | the trimmed text is empty exactly when every character is whitespace |
| Text.TrimIdempotent | crates/ollama/src/edit_prediction_completion_provider.rs:404 | trimming twice is trimming once |
| Text.LowerTrim | crates/gpui/src/render_prefs.rs:105 | ASCII lowercasing and trimming commute |
| Text.ContainsAt | crates/ollama/src/edit_prediction_completion_provider.rs:227-232 | `contains` holds exactly when the needle occurs at some index |
| Text.ContainsLowered | crates/ollama/src/edit_prediction_completion_provider.rs:226-232 | a lowercase needle found in a name is still found after lowercasing the name |
| Text.JoinSplit | crates/ollama/src/edit_prediction_completion_provider.rs:408-411 | joining the newline-split pieces with newlines gives back the text |
| Text.SplitPiecesHaveNoNewline | crates/ollama/src/edit_prediction_completion_provider.rs:408 | no split piece holds a newline |
| Text.SplitConcat | crates/ollama/src/edit_prediction_completion_provider.rs:408 | splitting around one newline is splitting each side |
| Text.LinesFacts | crates/ollama/src/edit_prediction_completion_provider.rs:408 | text has no lines exactly when it is empty, and no line holds a newline |
| Text.LinesCons | crates/ollama/src/edit_prediction_completion_provider.rs:408 | a first line followed by a newline is the first element of the lines |
| Text.DecimalRoundTrip | crates/ollama/src/edit_prediction_completion_provider.rs:112 | the decimal rendering of a number reads back as that number |
| Text.DecimalLeadingZero | crates/gpui/src/render_prefs.rs:65 | a leading zero adds nothing to a numeral's value |
| PostProcess.TrimByteOrderMarks | crates/ollama/src/edit_prediction_completion_provider.rs:330 | the result is the input with its leading and trailing byte-order marks removed, and starts and ends with something else |
| PostProcess.StripMarkdownCodeBlocks | crates/ollama/src/edit_prediction_completion_provider.rs:403-421 | computes, on the trimmed text, the interior lines joined by newlines when it opens with a fence, has more than two lines and its last line trims to a fence; otherwise one backtick dropped from each end when it is longer than two characters and starts and ends with one; otherwise the trimmed text |
| PostProcess.StripFencedBlock | crates/ollama/src/edit_prediction_completion_provider.rs:403-412 | a fenced block with any one-line tag comes back as exactly the body between the fences |
| PostProcess.FencedIsTrimmed | crates/ollama/src/edit_prediction_completion_provider.rs:404 | a fenced block is already trimmed |
| PostProcess.FencedLines | crates/ollama/src/edit_prediction_completion_provider.rs:408 | the lines of a fenced block are the opening line, the body's pieces, and the closing fence |
| PostProcess.StripInlineSpan | crates/ollama/src/edit_prediction_completion_provider.rs:407-418 | any code in single backticks that does not itself start with two backticks comes back without exactly one backtick at each end |
| PostProcess.StripPlainText | crates/ollama/src/edit_prediction_completion_provider.rs:404-420 | text whose trimmed form does not start with a backtick comes back trimmed and otherwise unchanged |
| PostProcess.PlainTextIsKept | crates/ollama/src/edit_prediction_completion_provider.rs:330-337 | plain text without marks, fences or surrounding whitespace passes the first two cleanup steps unchanged |
| PostProcess.LongestPrefixOverlap | crates/ollama/src/edit_prediction_completion_provider.rs:425-435 | the largest k up to the bound such that the prefix ends with the completion's first k characters, or 0 when there is none |
| PostProcess.LongestSuffixOverlap | crates/ollama/src/edit_prediction_completion_provider.rs:440-450 | the largest k up to the bound such that the completion ends with the suffix's first k characters, or 0 when there is none |
| PostProcess.LongestPrefixOverlapIs | crates/ollama/src/edit_prediction_completion_provider.rs:425-435 | any k that overlaps with no larger overlap up to the bound is the longest overlap |
| PostProcess.LongestSuffixOverlapIs | crates/ollama/src/edit_prediction_completion_provider.rs:440-450 | any k that overlaps with no larger overlap up to the bound is the longest overlap |
| PostProcess.PrefixOverlap | crates/ollama/src/edit_prediction_completion_provider.rs:424-435 | the longest prefix overlap within min(100, prefix length, completion length) |
| PostProcess.SuffixOverlap | crates/ollama/src/edit_prediction_completion_provider.rs:439-450 | the longest suffix overlap within min(80, suffix length, completion length) |
| PostProcess.TrimRedundantPrefix | crates/ollama/src/edit_prediction_completion_provider.rs:423-436 | the result is a suffix of the completion, cut by the longest prefix overlap of at most 100 characters, and no longer overlap exists |
| PostProcess.TrimRedundantSuffix | crates/ollama/src/edit_prediction_completion_provider.rs:438-451 | the result is a prefix of the completion, cut by the longest suffix overlap of at most 80 characters, and no longer overlap exists |
| PostProcess.WholePrefixOverlap | crates/ollama/src/edit_prediction_completion_provider.rs:424-435 | a completion that starts with the whole prefix (at most 100 characters) loses exactly that prefix |
| PostProcess.NoSuffixOverlap | crates/ollama/src/edit_prediction_completion_provider.rs:439 | an empty suffix trims nothing |
| PostProcess.RepeatedImportIsTrimmed | crates/ollama/src/edit_prediction_completion_provider.rs:423-436 | a completion that repeats the prefix line `import numpy as np` and its newline keeps only `print(np)` |
| PostProcess.CleanCompletion | crates/ollama/src/edit_prediction_completion_provider.rs:329-342 | computes the cleaned completion: byte-order marks trimmed, and for a chat model also the markdown markers stripped, then the prefix overlap and then the suffix overlap removed |
| PostProcess.Clean | crates/ollama/src/edit_prediction_completion_provider.rs:329-342 | the step-by-step cleanup the refresh task performs returns exactly the cleaned completion |
| PostProcess.OverlapCutIsSlice | crates/ollama/src/edit_prediction_completion_provider.rs:423-451 | cutting the prefix overlap and then the suffix overlap leaves a contiguous part of the text, at most 100 characters from its start and 80 from its end |
| PostProcess.CleanIsSliceOfStripped | crates/ollama/src/edit_prediction_completion_provider.rs:335-341 | in chat mode the cleaned text is a contiguous part of the de-fenced response, with at most 100 characters cut at its start and at most 80 at its end |
| PostProcess.CleanFimKeepsText | crates/ollama/src/edit_prediction_completion_provider.rs:330-342 | a FIM response without byte-order marks is taken verbatim |
| PostProcess.CleanPlainAfterPrefix | crates/ollama/src/edit_prediction_completion_provider.rs:330-341 | against an empty suffix, with a prefix of at most 100 characters, a plain chat response that starts with the whole prefix becomes its remainder |
| PostProcess.OverlapTrimNotIdempotent | crates/ollama/src/edit_prediction_completion_provider.rs:330-341 | against an empty suffix, with a plain prefix of at most 100 characters, cleaning is not idempotent: the doubled prefix cleans to the prefix, and cleaning that again gives the empty text |
| Provider.NonEmptyVar | crates/ollama/src/edit_prediction_completion_provider.rs:43-52 | a variable counts exactly when it is set and not empty, and then it is its value |
| Provider.StreamText | crates/ollama/src/edit_prediction_completion_provider.rs:318-327 | computes the concatenated assistant contents up to and including the first delta marked done, or the end of the stream; nothing when an error comes first |
| Provider.OllamaCompletionProvider.constructor | crates/ollama/src/edit_prediction_completion_provider.rs:42-64 | the model and API key are the non-empty environment values, the API URL falls back to the default, nothing is pending and there is no prediction |
| Provider.ReadStream | crates/ollama/src/edit_prediction_completion_provider.rs:318-327 | the loop returns the stream's text exactly as the stream function defines it |
| Provider.OpenStreamYieldsAll | crates/ollama/src/edit_prediction_completion_provider.rs:318-327 | a stream without errors or done flags yields every assistant content, concatenated |
| Provider.StreamStopsAtDone | crates/ollama/src/edit_prediction_completion_provider.rs:321-326 | the delta marked done is the last one read, including its own content; later items are ignored |
| Provider.StreamErrorLosesAll | crates/ollama/src/edit_prediction_completion_provider.rs:319-320 | an error before any done delta fails the whole refresh |
| Provider.TaskFor | crates/ollama/src/edit_prediction_completion_provider.rs:277-294 | the task keeps the clipped prefix and suffix, which together are the window around the cursor, and whether the model is FIM |
| Provider.PrepareTask | crates/ollama/src/edit_prediction_completion_provider.rs:279-285 | collecting the context and building the messages gives the task the refresh spawns |
| Provider.OllamaCompletionProvider.ClearPrediction | crates/ollama/src/edit_prediction_completion_provider.rs:66-72 | the prediction is dropped; its keys are dropped only when a prediction was held, and nothing pending changes |
| Provider.OllamaCompletionProvider.Accept | crates/ollama/src/edit_prediction_completion_provider.rs:379-381 | no prediction and no keys are left, and the pending refresh is unchanged |
| Provider.OllamaCompletionProvider.Discard | crates/ollama/src/edit_prediction_completion_provider.rs:383-385 | no prediction and no keys are left, and the pending refresh is unchanged |
| Provider.OllamaCompletionProvider.Suggest | crates/ollama/src/edit_prediction_completion_provider.rs:387-400 | a prediction is served exactly when one is held and both the buffer and the cursor match, and then it is the stored one |
| Provider.OllamaCompletionProvider.IsRefreshing | crates/ollama/src/edit_prediction_completion_provider.rs:261-263 | holds exactly when a refresh is pending |
| Provider.OllamaCompletionProvider.IsEnabled | crates/ollama/src/edit_prediction_completion_provider.rs:257-259 | holds exactly when a model is configured |
| Provider.OllamaCompletionProvider.SuggestionInsertsAtCursor | crates/ollama/src/edit_prediction_completion_provider.rs:355-361 | a served prediction is a single non-blank insertion at the queried cursor |
| Provider.OllamaCompletionProvider.Refresh | crates/ollama/src/edit_prediction_completion_provider.rs:265-296 | without a model only the prediction is dropped; otherwise the prediction and keys are dropped and the new task is the pending one, which makes the provider refreshing |
| Provider.OllamaCompletionProvider.CompleteRefresh | crates/ollama/src/edit_prediction_completion_provider.rs:314-364 | a cancelled task or a failed request or stream changes nothing; otherwise nothing is pending, and a blank cleaned completion leaves no prediction while any other one is stored as one insertion at the task's cursor, keyed by its buffer and cursor |
| Provider.LatestRefreshWins | crates/ollama/src/edit_prediction_completion_provider.rs:296-364 | after refreshes at two anchors, the first response arriving late is ignored: when the second stream succeeds, a blank cleaned text leaves no prediction and any other is stored as one insertion at the second anchor, keyed by the second buffer and anchor; when it fails the provider is still refreshing and holds nothing |
| RenderPrefs.ParseAntialiasingMode | crates/gpui/src/render_prefs.rs:104-113 | each mode is returned exactly when the trimmed, ASCII-lowercased value is one of its aliases; anything else is none |
| RenderPrefs.AliasSetsAreDisjoint | crates/gpui/src/render_prefs.rs:106-110 | no alias names two modes |
| RenderPrefs.ParseIgnoresWhitespaceAndCase | crates/gpui/src/render_prefs.rs:105 | trimming or lowercasing a value first gives the same parse |
| RenderPrefs.AliasesParse | crates/gpui/src/render_prefs.rs:106-110 | every alias parses, in any case and with surrounding whitespace, to its mode |
| RenderPrefs.ClampReducedLevels | crates/gpui/src/render_prefs.rs:115-117 | the result lies in [2, 8]; values in range are kept, smaller ones become 2 and larger ones 8 |
| RenderPrefs.ClampIdempotent | crates/gpui/src/render_prefs.rs:115-117 | clamping twice is clamping once |
| RenderPrefs.ParseU16 | crates/gpui/src/render_prefs.rs:65 | after an optional leading `+`, the text parses exactly when it is one or more ASCII digits whose value is below 65536, and then to that value |
| RenderPrefs.ParseU16RoundTrip | crates/gpui/src/render_prefs.rs:65 | every 16-bit number parses back from its decimal form, with or without a leading `+` |
| RenderPrefs.ParseU16Rejects | crates/gpui/src/render_prefs.rs:65 | numerals of 65536 or more are rejected, and so is every numeral with a `-` or a whitespace character before it or after it |
| RenderPrefs.ParseU16LeadingZero | crates/gpui/src/render_prefs.rs:65 | a leading zero does not change what a numeral parses to |
| RenderPrefs.SaturateToU8 | crates/gpui/src/render_prefs.rs:67 | values up to 255 are kept and larger ones become 255 |
| RenderPrefs.TruncateToU8 | crates/gpui/src/render_prefs.rs:74 | the result is the value modulo 256 |
| RenderPrefs.WithEnvOverrides | crates/gpui/src/render_prefs.rs:55-83 | computes the profile with a mode that parses after trimming, a threshold that parses saturated to 255, a level count that parses truncated to 8 bits and clamped, and subpixel positioning disabled when that variable is set to anything but `0`; each absent or unparseable variable keeps its field |
| RenderPrefs.WithConfig | crates/gpui/src/render_prefs.rs:85-101 | computes the profile with each present config field replacing its own field: the mode only when it parses, the level count clamped |
| RenderPrefs.LoadedProfile | crates/gpui/src/render_prefs.rs:146-163 | computes the defaults overlaid by the environment for one prefix and then by the config section when present |
| RenderPrefs.EnvNumbersNarrowDifferently | crates/gpui/src/render_prefs.rs:63-75 | a threshold of 300 saturates to 255, while a level count of 258 truncates to 2 before clamping |
| RenderPrefs.ParseThreeDigits | crates/gpui/src/render_prefs.rs:65 | three decimal digits parse to their value |
| RenderPrefs.EnvNeverEnablesSubpixel | crates/gpui/src/render_prefs.rs:77-82 | when subpixel positioning is already disabled, the environment overlay never re-enables it |
| RenderPrefs.EmptyEnvChangesNothing | crates/gpui/src/render_prefs.rs:55-83 | with none of the four variables set, the profile is unchanged |
| RenderPrefs.ConfigWinsOverEnv | crates/gpui/src/render_prefs.rs:85-101 | each present config field (a mode only when it parses, levels clamped) replaces the environment's value, and each absent one keeps it |
| RenderPrefs.FullConfigIgnoresEnv | crates/gpui/src/render_prefs.rs:146-163 | a config with every field present, and a mode that parses, makes the result independent of the environment |
| RenderPrefs.OverlaysIdempotent | crates/gpui/src/render_prefs.rs:55-101 | applying the same environment or the same config twice is applying it once |
| RenderPrefs.OverlaysKeepLevelsInRange | crates/gpui/src/render_prefs.rs:70-101 | both overlays keep the level count in [2, 8] |
| RenderPrefs.AntialiasingProfile.DefaultBuffer | crates/gpui/src/render_prefs.rs:37-44 | the buffer profile starts as Binary, threshold 96, 4 levels, subpixel positioning disabled |
| RenderPrefs.AntialiasingProfile.DefaultUi | crates/gpui/src/render_prefs.rs:46-53 | the UI profile starts as Default, threshold 96, 4 levels, subpixel positioning enabled |
| RenderPrefs.AntialiasingProfile.ApplyEnvOverrides | crates/gpui/src/render_prefs.rs:55-83 | the new profile is the environment overlay of the old one, and levels stay in range |
| RenderPrefs.AntialiasingProfile.ApplyConfig | crates/gpui/src/render_prefs.rs:85-101 | the new profile is the config overlay of the old one, and levels stay in range |
| RenderPrefs.AntialiasingPrefs.constructor | crates/gpui/src/render_prefs.rs:19-26 | fresh buffer and UI profiles holding their defaults |
| RenderPrefs.LoadPrefs | crates/gpui/src/render_prefs.rs:146-163 | each profile is its defaults, overlaid first by its environment prefix and then by its configuration section when one is present |
| RenderPrefs.LoadedLevelsInRange | crates/gpui/src/render_prefs.rs:146-163 | a loaded profile always has its level count in [2, 8] |

## Left out

- Byte offsets: text is a sequence of characters. The 2000/500 window and the 100/80 overlap caps count characters, not UTF-8 bytes. Every index is a character boundary, so the `is_char_boundary` checks of the overlap trims are always true.
- Unicode lowercasing: `supports_fim` lowercases with Unicode case folding, and the model lowercases only ASCII letters there. The mode parser already lowercases ASCII only. Whitespace is the full Unicode White_Space set, the set Rust's `trim` uses.
- `lines()` splits on `'\n'` only. A `"\r\n"` line ending keeps its `'\r'`.
- The buffer and anchors: buffer snapshots and anchor resolution are inputs. The model takes the buffer id, the text, the cursor offset, the language name, the file path, the tab size and the hard-tabs setting as given. `language_settings` and the path display are calls into the editor.
- Prompt.CollectContext: the summary formatting is modelled. The settings lookup that feeds it is not.
- The environment: `OLLAMA_MODEL` is read once, at construction. The source reads it again when building messages (:128) and when cleaning the completion (:334), so a change of the variable between those reads is not modelled.
- The HTTP request: the `ChatRequest` fields, `MAX_PREDICT_TOKENS` and the transport are I/O. The response arrives as a sequence of stream items. A request that could not be sent arrives as no stream.
- The async plumbing: the 75 ms debounce timer, task spawning, executors and `cx.notify()` are left out. The debounce flag is only recorded in the task.
- Cancellation: a replaced pending task is assumed never to run its commit. This models gpui's drop-cancels-task behaviour, which is not part of this model.
- Provider.OllamaCompletionProvider.CompleteRefresh: each spawned task completes at most once in the source, but the model does not enforce it. Any task value that carries the pending token is accepted, including one that already failed and so left its token pending, and one built by hand with a different cursor. No stated property depends on this.
- Provider.OllamaCompletionProvider.CompleteRefresh: a failed request or stream returns before the state update, so `is_refreshing` stays true. This follows the code, not a reading in which a failure clears the pending refresh.
- Provider.OllamaCompletionProvider.CompleteRefresh: a commit for an entity that no longer exists is not modelled. In the source the `?` after `this.update` ends the task with that failure as its error; `let _` discards only the closure's own `Ok(())`. Either way the state does not change.
- The `EditPrediction` fields `id` and `edit_preview` are always `None` in the source and are omitted.
- `cycle`, `name`, `display_name`, `show_completions_in_menu`, `show_tab_accept_marker`, `supports_jump_to_edit` and `is_enabled`'s unused arguments are constants or no-ops, and are not modelled beyond `IsEnabled`.
- The antialiasing config file: `fs::read_to_string`, `serde_json`, the `HOME`-based config path, the `OnceLock` cache, `log::info!` and the non-Linux `load_prefs` are left out. The parsed configuration is an input, absent when the file is missing or unreadable.
- RenderPrefs.ParseU16: this is Rust's `u16` parsing as far as the model uses it: an optional `+`, then at least one ASCII digit, with a value below 65536.
- Parse-failure of the config file enters only as an absent configuration, not as the cause of the failure.
