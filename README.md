# DebugOS core, modelled in Dafny

DebugOS is a code-debugging playground. A browser client sends the code in its
editor to a small Python server. The server asks a language model for an
analysis: bugs with line numbers, an explanation, fixed and optimised code,
complexity and tests. The client shows that analysis as a table of bugs, a
status line, a history of past analyses and a line-by-line diff.

This project models the logic of the two core files.

The server engine (`backend/ai_engine.py`):

- `_extract_line_number`. Its four regexes (the line-mention, explicit-line and snippet patterns and the
  inline `\b\w{4,}\b`) become hand-written scanners with
  leftmost-match semantics (modules `Patterns` and `LineExtraction`).
- The fallback result returned when no model client is configured.
- The clean-up of the model's reply: strip, remove a Markdown fence, cut to the
  outermost braces.
- The post-processing that fills in missing bug lines.
- `analyze_code` as a whole (module `Engine`).

The browser client (`frontend/app.js`):

- The settings record with its defaults, and the theme toggle
  (`ClientSettings`, a class whose handlers update the settings and their
  stored copy).
- The analysis history: insertion with a cap of twenty entries, the preview,
  and finding an entry by id (`ClientHistory`, a class holding the list).
- The line count, the complexity label, the line-number gutter and the Tab key
  (`ClientMetrics`).
- The rows of the bug table (`ClientBugTable`).
- The diff view, including HTML escaping (`ClientDiff`).
- The `analyzeCode` flow: input guard, status, history, rows
  (`ClientAnalysis`).

`Agreement` relates the two sides. It shows how the client renders the
engine's offline result and a filled-in line. It also shows one input on which
they disagree: "12 l." is line 12 for the engine, but the client's own pattern
has no `l.` alternative, so the client shows "-".

Shared vocabulary lives in `Text` and `Wire`:

- character classes; JavaScript's `\s`/`trim` and Python's `\s`/`strip()`,
  modelled with their own, different sets;
- splitting and decimal numerals;
- the JSON shapes, where a key is `Absent`, `Null` or `Present`.

Where the source loops or updates state, the model does too:

- the loops `SearchLines`, `FillMissingLines`, `LineNumbers` and
  `GenerateDiffView`, and the step-by-step method `CleanReply`, are each proved
  equal to a pure function that states what they compute;
- the methods of the `SettingsStore`, `History`, `Editor` and `Playground`
  classes state the new value of every field they change, in terms of the old
  state and of those pure functions, and the invariants they keep.

`Text` also states what a global regex search finds (`re.findall`, a `/g`
match): the leftmost match, then the leftmost one from where it ended, and so
on. The snippets, the words and the keyword counts are stated through it.

## Model

| member | source | states |
|---|---|---|
| Text.TrimBy | frontend/app.js:391 | the result is empty exactly when every character is a space; otherwise it starts and ends with a non-space and is a slice of the input with only spaces removed before and after it |
| Text.Split | frontend/app.js:198 | splitting on a character gives one piece more than the text has separators, and no piece contains the separator |
| Text.JoinSplit | backend/ai_engine.py:39 | joining the pieces of a split with the separator gives back the original text |
| Patterns.MatchAt | backend/ai_engine.py:20-21 | a match of either line-number pattern at a position captures one or more ASCII digits |
| Patterns.Search | backend/ai_engine.py:31 | the search returns the capture of the leftmost position where the pattern matches, and None only when it matches nowhere |
| Patterns.NoDigitsNoMatch | frontend/app.js:437 | a message without digits matches neither pattern |
| Patterns.NumberMentionFound | backend/ai_engine.py:35-37 | for every N, a message opening with N's numeral, a space and a line word ("line", "ln", and for the engine "l.") and holding no other digit fails `line\s+(\d+)` and gives N's numeral to the second pattern |
| Patterns.LineMentionFound | backend/ai_engine.py:31-33 | when a message's first "line" (in any case) is followed by a space and a numeral with no further digit, the search yields that numeral, whatever follows it |
| LineExtraction.SnippetsFrom | backend/ai_engine.py:42 | the snippets are, in order, the texts between the quotes of the matches that a global search for a quote, five or more other characters and a quote finds from the index; a closing quote is consumed and never opens the next snippet |
| LineExtraction.WordsFrom | backend/ai_engine.py:50 | the words are, in order, the texts of the matches that a global search finds from the index, that is every maximal run of word characters at a word boundary that is at least four long |
| LineExtraction.SnippetShape | backend/ai_engine.py:22 | every snippet has at least five characters and contains no quote |
| LineExtraction.WordShape | backend/ai_engine.py:50 | every word has at least four characters, all of them word characters |
| Text.MatchStarts | backend/ai_engine.py:42 | the starts of the matches of a global search: each the leftmost match at or after the end of the previous one, and no match after the last |
| Text.LeftmostMatchesUnique | frontend/app.js:202 | that description fixes the matches: any sequence of starts with the leftmost-match property is the one the search finds |
| LineExtraction.FindLineFrom | backend/ai_engine.py:45-47 | the result is the 1-based index of the first line that contains the needle, ignoring case; None means no line does |
| LineExtraction.FirstHit | backend/ai_engine.py:43-55 | the result is the line found for the first needle, in order, that some line contains; that line lies in 1..#lines; None means no needle is in any line |
| LineExtraction.LineNumberOf | backend/ai_engine.py:28-57 | the `line\s+(\d+)` capture wins; failing that, the `\b(\d+)\s*(?:line\|ln\|l\.)` capture; failing both, the line of the first needle that hits among the snippets followed by the words (snippets are tried first), in 1..#lines; None exactly when both patterns fail and no snippet and no word occurs in any line |
| LineExtraction.FirstHitAppend | backend/ai_engine.py:42-55 | searching snippets then words one after the other is searching their concatenation: the second list is tried only when the first finds nothing |
| LineExtraction.NumberMentionWins | backend/ai_engine.py:35-37 | a message opening with "N line", "N ln" or "N l." and holding no other digit yields N for every N, whatever the code |
| LineExtraction.SearchLines | backend/ai_engine.py:43-55 | the nested loops with early return compute the first-hit line of the first needle that hits |
| LineExtraction.ExtractLineNumber | backend/ai_engine.py:28-57 | `_extract_line_number` returns exactly the prioritised result LineNumberOf |
| LineExtraction.LineMentionWins | backend/ai_engine.py:31-33 | "line N" yields N for every natural number N, whatever the code, so the result is not bounded by the code's length |
| Engine.OfflineAnalysis | backend/ai_engine.py:67-89 | the fallback has using_ai false, fixed and optimised code equal to the input code, and exactly one bug: null line, type "Info", the fixed message |
| Engine.StripFenceStart | backend/ai_engine.py:158 | text without a leading fence is unchanged; otherwise what remains is the suffix after the fence, the optional case-sensitive "json" and the whole run of Python spaces that follows: everything cut after the tag is a space, and the rest does not start with one |
| Engine.BareFenceStripped | backend/ai_engine.py:158 | "```", any run of spaces and a body not starting with a space (nor with "json" when no space came first) leaves exactly the body |
| Engine.FenceEndAt | backend/ai_engine.py:25 | a closing-fence match starting at a position ends after it and within the text |
| Engine.FenceEndSearch | backend/ai_engine.py:159 | the search finds the leftmost position where a closing-fence match starts, or reports that none does |
| Engine.StripFenceEnd | backend/ai_engine.py:159 | a text with no closing fence at any position comes back unchanged; otherwise exactly the leftmost `\s*```$` match, from its start to its end, is cut out |
| Engine.FenceEndIsLast | backend/ai_engine.py:159 | no closing-fence match starts at or after the end of a match, so `sub` replaces exactly one |
| Engine.Unfenced | backend/ai_engine.py:157-159 | the fence patterns are applied only when the text starts with three backticks; otherwise the text is unchanged |
| Engine.BraceMatchAt | backend/ai_engine.py:23 | a brace match starting at a position starts on `{` and ends on the last `}` of the text |
| Engine.BraceSearch | backend/ai_engine.py:162 | the search returns the leftmost position where a brace match starts, or None when none does |
| Engine.BraceSearchFinds | backend/ai_engine.py:162-164 | the brace search fails exactly when no `{` comes before a `}`; when it succeeds, it runs from the first `{` to the last `}` |
| Engine.BraceSpan | backend/ai_engine.py:161-164 | when some `{` precedes some `}`, the result is the text from the first `{` through the last `}` inclusive; otherwise it is the text unchanged |
| Engine.ExtractJson | backend/ai_engine.py:162-164 | the match-and-slice step computes the brace span |
| Engine.CleanReply | backend/ai_engine.py:156-164 | the step-by-step clean-up equals strip, then fence removal, then the brace span; an unfenced reply goes straight from strip to the brace span |
| Engine.FenceStartOfReply | backend/ai_engine.py:158 | a "```json" line ending in a line break comes off whole |
| Engine.FenceEndOfReply | backend/ai_engine.py:159 | a closing fence on its own last line comes off with its line break |
| Engine.BraceSpanWhole | backend/ai_engine.py:162-164 | a text that starts with `{` and ends with `}` is kept whole |
| Engine.FencedReplyCleans | backend/ai_engine.py:156-164 | a JSON object wrapped in a ```json fence is cleaned down to exactly the object |
| Engine.CleanedReply | backend/ai_engine.py:156-164 | after the strip and fence removal, a text with a `{` before a `}` is cut to a text opening with `{` and closing with `}`; any other text is kept as it is |
| Engine.BraceSpanBraces | backend/ai_engine.py:162-164 | the span of a text with a brace pair opens with `{` and closes with `}` |
| Engine.FilledBug | backend/ai_engine.py:196-199 | only a bug whose line is missing or null and that has a message can change; a null message raises; the type and message never change; a line-missing bug whose message yields a line of at least 1 gets exactly that line, and a changed bug always got such a line |
| Engine.FilledBugs | backend/ai_engine.py:194-199 | the list is processed completely, bug by bug, or not at all when some bug raises |
| Engine.FillMissingLines | backend/ai_engine.py:195-199 | the in-place loop over the bug array succeeds exactly when no bug raises, and then each bug is its filled version |
| Engine.ProcessReply | backend/ai_engine.py:193-202 | on success using_ai is true and the message is the success message; all other keys are kept; the bugs are the filled list |
| Engine.ProcessData | backend/ai_engine.py:194-202 | copying the bugs into an array, filling them in place and setting the two keys gives the processed reply |
| Engine.AnalyzeCode | backend/ai_engine.py:64-204 | without a model client the result is the offline fallback; otherwise it is the processed parse of the cleaned reply, or of the canned result when parsing fails |
| Engine.LineZeroLeavesBugUnchanged | backend/ai_engine.py:198-199 | "line 0" extracts 0, which is falsy, so the bug keeps its null line |
| Engine.MentionedLineFilled | backend/ai_engine.py:196-199 | for every N of at least 1, a line-missing bug whose message starts with "line N", with no digit after N, gets line N whatever the code |
| ClientSettings.Load | frontend/app.js:14-20 | theme is the stored value, or "dark" when unset or empty; defaultLanguage likewise with "Python"; autoAnalyze is true only for "true"; autoSave and showMetrics are true unless the stored value is "false" |
| ClientSettings.BoolText | frontend/app.js:102 | a boolean is stored as "true" or "false", matching its value |
| ClientSettings.Store | frontend/app.js:100-118 | every key is written: the theme and language as they are, and each flag as "true" exactly when it is set |
| ClientSettings.StoreThenLoad | frontend/app.js:14-20 | settings written back and read again are unchanged exactly when the theme and language are non-empty |
| ClientSettings.Toggled | frontend/app.js:86 | the toggle always yields "dark" or "light", and yields "light" exactly from "dark" |
| ClientSettings.ToggleTwice | frontend/app.js:85-88 | toggling twice restores the theme exactly when it was "dark" or "light"; any other value becomes "dark", then "light" |
| ClientSettings.SettingsStore.constructor | frontend/app.js:14-20 | the settings are loaded once from storage and agree with it |
| ClientSettings.SettingsStore.ApplyTheme | frontend/app.js:78-83 | the theme is set in the settings, in storage and on the page, and the icon is a sun for dark, else a moon; nothing else changes; storage and memory stay in agreement |
| ClientSettings.SettingsStore.ToggleTheme | frontend/app.js:85-88 | the theme becomes the toggled one everywhere, and storage and memory stay in agreement |
| ClientSettings.SettingsStore.SetAutoAnalyze | frontend/app.js:100-103 | only autoAnalyze changes, in memory and as its text in storage |
| ClientSettings.SettingsStore.SetAutoSave | frontend/app.js:105-108 | only autoSave changes, in memory and as its text in storage |
| ClientSettings.SettingsStore.SetShowMetrics | frontend/app.js:110-114 | showMetrics changes in memory and storage, and the metrics section is shown exactly when it is checked |
| ClientSettings.SettingsStore.SetDefaultLanguage | frontend/app.js:116-120 | the default language changes in memory and storage, and the editor's language follows it |
| ClientHistory.Preview | frontend/app.js:137 | code of at most 100 characters is kept as it is; longer code becomes its first 100 characters followed by "..." |
| ClientHistory.BugCount | frontend/app.js:139 | the bug count is the length of the bug list, or 0 when there is none |
| ClientHistory.MakeEntry | frontend/app.js:133-140 | the entry keeps the full code, the language and the id, with the preview and the bug count |
| ClientHistory.Inserted | frontend/app.js:142-143 | the new entry is first; the length is min(old length + 1, 20); after it come the old entries, in order, as many as fit |
| ClientHistory.InsertIntoFull | frontend/app.js:142-143 | a full list loses exactly its oldest entry |
| ClientHistory.InsertAllKeepsNewest | frontend/app.js:142-143 | after any series of saves the list holds the newest entries first, newest to oldest, capped at 20 |
| ClientHistory.Find | frontend/app.js:172 | the result is the first entry with the id, and None exactly when no entry has it |
| ClientHistory.FindInserted | frontend/app.js:172 | the entry just saved is the one its id finds |
| ClientHistory.ParseIntText | frontend/app.js:171 | parsing the text an id is written as gives back the id, negative ids included |
| ClientHistory.ParseInt | frontend/app.js:171 | a number comes back only when the text holds a digit; a text that starts with a digit never gives a negative number, and gives a number unless a "0x"/"0X" prefix opens it; after a "0x"/"0X" prefix a number comes back exactly when a hexadecimal digit follows |
| ClientHistory.ParseHexText | frontend/app.js:171 | "0x" followed by hexadecimal digits reads them in base 16 |
| ClientHistory.LoadTarget | frontend/app.js:171-172 | what a Load button finds has the button's id and is that entry or an earlier one |
| ClientHistory.LoadFindsEntry | frontend/app.js:169-175 | a Load button always finds an entry with its own id, and finds its own entry when no earlier entry shares the id |
| ClientHistory.History.constructor | frontend/app.js:131 | the history starts as the stored list |
| ClientHistory.History.Save | frontend/app.js:130-146 | the entry is inserted first and the list is cut to 20; a list within the cap stays within it |
| ClientHistory.History.Clear | frontend/app.js:122-127 | the history is emptied when the user confirms, and is otherwise unchanged |
| ClientMetrics.LineCount | frontend/app.js:198 | the line count is the number of line breaks plus one, so it is at least 1 |
| ClientMetrics.FirstAlternative | frontend/app.js:202 | the alternation matches at a position exactly when one of its keywords does there; the match is the first keyword in list order that occurs there, even when a later one is longer, and has that keyword's length |
| ClientMetrics.CountFrom | frontend/app.js:202-203 | the count is the number of matches a global search of the alternation finds from the index, each the leftmost at or after the end of the previous one; it is at most the number of characters left |
| ClientMetrics.LoopAlternativeSame | frontend/app.js:202 | with or without "foreach", the loop alternation matches the same thing at every position |
| ClientMetrics.ForeachNeverCounted | frontend/app.js:202 | the loop count equals the count of `for|while` alone |
| ClientMetrics.ComplexityLabel | frontend/app.js:204-207 | the label is "High" exactly when loops plus conditions exceed 10, "Low" exactly when they are at most 5, and otherwise "Medium" |
| ClientMetrics.LabelMonotone | frontend/app.js:204-207 | more loops or conditions never give a lower label |
| ClientMetrics.MetricsOf | frontend/app.js:196-213 | the panel shows line breaks plus one, the text length, and the label that the keyword counts call for |
| ClientMetrics.Gutter | frontend/app.js:225-232 | the gutter has one number per line, namely 1, 2, … up to the line count |
| ClientMetrics.LineNumbers | frontend/app.js:224-236 | the loop from 1 to the line count builds exactly that gutter |
| ClientMetrics.Editor.InsertTab | frontend/app.js:261-270 | the selection is replaced by two spaces, the caret sits just after them, and the gutter matches the new text |
| ClientMetrics.TabLineCount | frontend/app.js:266 | the line count drops by exactly the number of line breaks the selection held |
| ClientBugTable.LineCellOf | frontend/app.js:432-440 | a present line is shown as its number; a missing line with no message raises; otherwise the leftmost `line\s+(\d+)` capture is shown, failing that the leftmost `\b(\d+)\s*(?:line\|ln)` capture, and the placeholder exactly when both patterns fail |
| ClientBugTable.NumberedLineShown | frontend/app.js:437-438 | a line-less bug whose message opens with "N line" or "N ln" and holds no other digit is shown with N, for every N |
| ClientBugTable.TypeLabel | frontend/app.js:443 | the type is shown, or "Info" when it is missing or empty |
| ClientBugTable.TypeColor | frontend/app.js:444 | a known type gets its colour and any other gets the default grey, which is always one of the table's colours |
| ClientBugTable.RowFor | frontend/app.js:428-459 | a row raises exactly when the line cell raises; otherwise it shows that cell, the type label, its colour and the message or "" |
| ClientBugTable.RowsFor | frontend/app.js:427-470 | no bugs give the single "No bugs detected." row spanning 4 columns; otherwise there is one row per bug, in order, or nothing when some row raises |
| ClientBugTable.RowsOf | frontend/app.js:428-460 | one row per bug, each its own, or None exactly when some bug's row raises |
| ClientBugTable.RenderBugRows | frontend/app.js:424-472 | the loop builds exactly the rows of the bug list |
| ClientBugTable.MentionedLineShown | frontend/app.js:437-438 | a line-less bug whose message first mentions "line N" is shown with N |
| ClientBugTable.NoDigitsPlaceholder | frontend/app.js:437-439 | a line-less bug whose message has no digits gets the "-" placeholder |
| ClientDiff.EscapeHtml | frontend/app.js:573-577 | the escaped text contains no angle bracket and is at least as long as the text |
| ClientDiff.EscapeRoundTrip | frontend/app.js:573-577 | UnescapeHtml inverts EscapeHtml on every text: the serialisation loses no character |
| ClientDiff.UnescapeStep | frontend/app.js:575-576 | each escaped character reads back as itself, whatever follows it |
| ClientDiff.DiffAt | frontend/app.js:561-566 | an unequal pair shows the removed original line and then the added fixed line, each only when it is not empty; an equal non-empty pair shows one neutral line; two empty lines show nothing |
| ClientDiff.DiffAtSides | frontend/app.js:561-566 | a pair's rows show the original line, if not empty, once on the old side, and the fixed line, if not empty, once on the new side |
| ClientDiff.DiffRows | frontend/app.js:557-567 | the first n pairs give at most 2n rows; read through the removed and neutral rows they are the non-empty original lines in order, and through the added and neutral rows the non-empty fixed lines |
| ClientDiff.KeptPadding | frontend/app.js:558-559 | missing lines counted as empty add nothing, however far the shorter side is padded |
| ClientDiff.Diff | frontend/app.js:550-556 | read through the removed and neutral rows the diff is the original's non-empty lines in order, and through the added and neutral rows the fixed code's: it loses no line and invents none |
| ClientDiff.IdenticalRowsNeutral | frontend/app.js:557-567 | comparing lines with themselves gives only neutral rows |
| ClientDiff.IdenticalNoChange | frontend/app.js:550-571 | comparing code with itself shows no added and no removed row |
| ClientDiff.RenderShown | frontend/app.js:562-565 | a row with an empty line renders as nothing; any other row renders as its markup |
| ClientDiff.ChangedHtml | frontend/app.js:561-563 | the markup for an unequal pair is a removed line if the original is non-empty, then an added line if the fixed one is non-empty |
| ClientDiff.PairHtml | frontend/app.js:558-566 | the loop body appends exactly the markup of the pair's rows |
| ClientDiff.GenerateDiffView | frontend/app.js:550-571 | the page gets the container holding the markup of every row of the diff, in order |
| ClientAnalysis.RequestFor | frontend/app.js:390-396 | a blank input sends nothing; otherwise the code sent is the trimmed input, with the selected language |
| ClientAnalysis.MessageOr | frontend/app.js:420 | the status shows the server's message, or "Analysis complete." when it is missing or empty |
| ClientAnalysis.Delivered | frontend/app.js:403-417 | an analysis arrives exactly when `fetch` resolves with a 2xx status and the body reads as a truthy value, and it is that value |
| ClientAnalysis.ReplyError | frontend/app.js:409-417 | a rejected fetch shows its own reason; a non-2xx status shows "HTTP error! status: " and the status; an unreadable body its reason; a falsy body "No response data received" |
| ClientAnalysis.OutcomeOf | frontend/app.js:389-505 | blank input is rejected with the error status; otherwise the request is sent, a delivered analysis is saved, the info status comes exactly with a successful table, and an error status comes with no rows |
| ClientAnalysis.Playground.AnalyzeCode | frontend/app.js:389-505 | a rejected call changes only the status; a sent call records the request, shows the outcome's status and rows, saves a delivered analysis to the history, and re-enables the button |
| ClientAnalysis.BlankInputRejected | frontend/app.js:391-396 | a blank editor never reaches the network or the history |
| ClientAnalysis.SavedEvenWhenRowsFail | frontend/app.js:422-460 | an analysis whose rows raise is still saved, because saving comes first, and the error is shown |
| Agreement.OfflineMessageHasNoDigits | backend/ai_engine.py:75 | the offline bug message contains no digit |
| Agreement.OfflineRendered | frontend/app.js:433-444 | the client shows the offline result as one "Info" row in the default grey, with the "-" placeholder |
| Agreement.OfflineOutcome | frontend/app.js:419-422 | an offline result is saved and its message shown as the info status |
| Agreement.FilledLineShown | frontend/app.js:433-435 | a line the engine filled in is shown as that number |
| Agreement.EngineMatchesAbbreviation | backend/ai_engine.py:21 | the engine's pattern reads "12 l." as 12 |
| Agreement.ClientMissesAbbreviation | frontend/app.js:437 | the client's pattern, which has no `l.` alternative, finds nothing in "12 l." |
| Agreement.ServerReadsAbbreviation | backend/ai_engine.py:35-37 | the engine extracts line 12 from "12 l.", whatever the code |
| Agreement.ClientIgnoresAbbreviation | frontend/app.js:437-438 | the client shows "-" for a line-less bug whose message is "12 l." |

## Left out

- I/O and the environment are parameters:
  - the model's reply text;
  - whether a model client is configured;
  - `json.loads`, a function that may fail;
  - the canned result used when parsing fails;
  - the network reply of `fetch`, with its HTTP status and body;
  - the clock values `Date.now()` and `toLocaleString()`;
  - the text of a TypeError.
- Not modelled: the Groq client, the prompts, dotenv and the environment
  lookup, and `print`. `backend/main.py` is not part of this model; it only
  wires `analyze_code` into a web server.
- Local storage is a record of five optional strings for the settings and a
  list of entries for the history. `JSON.parse` and `JSON.stringify` are
  assumed to round-trip the list. The `lastCode` autosave, `initializeApp`
  and `clearCode` are not modelled.
- Regex classes are simplified:
  - `\d` and `\w` are ASCII;
  - `lower()` and the case-insensitive flag are ASCII case folding;
  - Python's Unicode digits, letters and full case mapping are not modelled.
- Whitespace is not simplified: JavaScript's `\s`/`trim` and Python's `\s`/`strip()` use their own sets.
- Strings are sequences of code points. The preview cuts at 100 code points,
  where JavaScript counts UTF-16 units, and the character count is the number
  of code points.
- JSON shapes are modelled only as far as the logic needs:
  - only a list of bug objects is modelled; a non-list "bugs" value, a
    non-object bug, or a message or type that is not a string is left out;
  - a line is an integer, and non-integer lines and numbers beyond 2^53 are
    not modelled;
  - `TYPE_COLORS[bug.type]` is a plain map, so inherited object keys such as
    "constructor" are not modelled.
- The `funcs` count of `updateMetrics` is left out: its backtracking regex
  has no bearing on the other metrics.
- DOM building is modelled only through the data it shows:
  - the panels, copy buttons, export and download are left out;
  - `hljs` highlighting is left out;
  - the explanation, fixed and optimised code, complexity and test list are
    not rendered in the model;
  - the bug table is its rows, the gutter is its numbers, and the status is
    its text and kind.
- `escapeHtml` is given a concrete definition: how a text node is serialised
  (`&`, `<`, `>` and U+00A0 escaped). Attribute serialisation is not
  involved.
- Timers, `debounce`, auto-analyze and async are not modelled. The possible
  race between auto-analyze and a manual click is left out. Each call of
  `analyzeCode` is modelled as one atomic step; the intermediate
  "Analyzing…" status and the disabled button are visible only inside it.
- A history entry stores its fields as given. `Find` compares ids as
  integers, as `===` does on the parsed number.
- Engine.AnalyzeCode: `json.loads` may return a value that is not an object (a
  reply such as "null", "42" or "[]", where no `{…}` span is cut out). The
  source then raises a TypeError at `"bugs" in data` or `data["using_ai"] =
  True`. The parser parameter yields an analysis or fails, so the model
  gives a result where the source raises.
- LineExtraction.LineMentionWins: Python's `int()` raises ValueError on a numeral of more
  than 4300 digits (the default limit since Python 3.10.7). The model reads a
  numeral of any length, so `LineNumberOf`, `ExtractLineNumber`,
  `NumberMentionWins` and `MentionedLineFilled` claim a line number where the
  source raises.
- ClientAnalysis.OutcomeOf: after the bug rows are appended, the source can still throw: a
  null entry in `tests` fails at `t.description`, and an undeclared `hljs`
  fails when fixed or optimised code is present. The status then becomes
  "Error: …" while the rows stay on the page. The model leaves out the tests
  list and `hljs`, so `OutcomeOf` and `Playground.AnalyzeCode` show the info
  status whenever the rows succeed.
- ClientDiff.EscapeRoundTrip: an HTML parser also turns "\r" and "\r\n" into
  "\n" and drops NUL, and a diff line split on "\n" alone keeps the "\r" of a
  CRLF line. UnescapeHtml reads back only the four character references, so
  that normalisation is not part of the round trip.
