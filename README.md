# SmartCV job parser and Notion uploader, modelled in Dafny

This project models the two pieces of SmartCV that hold its logic.

- The job-text extraction pipeline of `SmartJobParser` (`app1_parser.py`):
  - `clean_text` folds a few glyphs and collapses whitespace;
  - `detect_format` classifies text as html, markdown or plain;
  - `convert_to_markdown` applies ten keyword-to-heading substitutions in order;
  - `heuristic_extract` pulls a salary range, a location, a visa flag and a work mode out of the text;
  - `parse_with_gpt5` tries two language-model backends in order;
  - `run` chains all of these, then fills missing or falsy keys of the answer from the heuristics.
- The three-record upsert engine of `app2_notion_uploader_v3.py`:
  - `hash_job_text` computes the job fingerprint;
  - `get_first_page_id` reads the first page id of a query result;
  - three builders produce the Notion page properties;
  - `save_to_notion` skips a duplicate, upserts the company record, upserts the role template (related to the company), and creates the job page (related to both).

Every regular expression of the core is modelled as a scanner for that one pattern. Each scanner is proved equal to a direct statement of what the pattern matches. Where CPython's `re` semantics matter, they are followed:
- `\s` is `str.isspace`;
- `\b` is judged on the whole string;
- alternation tries branches in order and backtracks into later ones;
- `[0-9,]+` and `\s*` are greedy;
- `re.IGNORECASE` also identifies `i` with U+0130 and U+0131, `s` with U+017F, and `k` with U+212A.

Where Python versions differ, the model follows CPython 3.12 and later:
- `int()` of a decimal string with more than 4300 digits raises `ValueError`. This is the default `sys.get_int_max_str_digits()`, introduced in 3.11 and in the 3.10.7, 3.9.14 and 3.8.14 releases.
- A slice is hashable, so `company[:60]` on a dict is a key lookup that misses and raises `KeyError`. Up to 3.11 it raised `TypeError`.

The external services are parameters of the model:
- `markdownify`, `json.loads`, `json.dumps`, `str()` and SHA-256 are functions passed in;
- the backend call is a function from (model, Markdown text, heuristics) to a reply;
- the three Notion databases are an in-memory `Store` class with query, create and update methods;
- the three clock readings are fields of an `Env` value.

The modules are:
- `Wrappers` (Option, Result), `Json` (the values and exceptions) and `PyText` (character classes and `str` helpers);
- `TextNormalizer` (`clean_text`) and `Patterns` (the scanners);
- `MarkdownConverter` (`detect_format`, `convert_to_markdown`) and `HeuristicExtractor` (`heuristic_extract`);
- `ExtractionClient` (the fallback loop, the merge, `run`);
- `NotionProps` (the fingerprint, `get_first_page_id`, the builders), `NotionStore` (the databases) and `NotionSave` (`save_to_notion`).

`convert_to_markdown` has one consequence of the rule order that is proved rather than corrected. Rule 1 rewrites the "overview" of "company overview" to "## Job Description" before rule 9 can see the phrase. So a word-bounded "company overview" reaches the "## About Us" rule as "company ## Job Description" (`MarkdownConverter.CompanyOverviewPreempted`).

The newline rule of `clean_text` is modelled as written, and is proved to change nothing.

## Model

| member | source | states |
|---|---|---|
| PyText.Strip | app1_parser.py:40 | `str.strip()`: empty exactly when the input is all whitespace, otherwise the input between its leading and trailing whitespace, with whitespace at neither end |
| PyText.StripUnspaced | app1_parser.py:71 | text with no whitespace at either end is its own `strip()` |
| PyText.LeadingSpacesAreSpaces | app1_parser.py:40 | every character `strip()` removes at the front is whitespace |
| PyText.TrimmedEndAreSpaces | app1_parser.py:40 | every character `strip()` removes at the back is whitespace |
| PyText.Take | app2_notion_uploader_v3.py:75 | `s[:n]` is a prefix no longer than `n`, and the whole string when it fits |
| PyText.Join | app2_notion_uploader_v3.py:90 | `sep.join(xs)` is empty for no items and the item itself for one; `JoinPrefixed` gives the general case |
| PyText.JoinPrefixed | app2_notion_uploader_v3.py:90-93 | `sep + sep.join(xs)` for a non-empty list is `sep` before each item, item by item (`EachPrefixed`) |
| PyText.RemoveChar | app1_parser.py:78 | `s.replace(c, "")` holds exactly the characters of `s` other than `c`, and is no longer |
| PyText.CommaRemoved | app1_parser.py:78-79 | removing the one comma between two comma-free parts joins the parts |
| PyText.DecimalSnoc | app1_parser.py:78-79 | `int()` of a digit string with one more digit is ten times the value plus that digit |
| PyText.IsSpace | app1_parser.py:38-40 | `str.isspace()`, which is also `\s`, by CPython's whitespace table; what the whitespace steps do with it is stated by `Strip`, `LeadingSpacesAreSpaces`, `TrimmedEndAreSpaces`, `CollapseWhitespace` and `CollapseShape` |
| PyText.IsWordChar | app1_parser.py:58-67 | `\w` as `\b` judges it; `LetterMatchIsWordChar`, `CharMatchFacts` and `RuleTwoWordEdges` state how it meets the patterns |
| PyText.CharMatchesIgnoreCase | app1_parser.py:58-67 | one character under `re.IGNORECASE` against a lower-case pattern character; stated by `LetterMatchIsWordChar`, `NonWordMatchesItself`, `CharMatchFacts` and `CharMatchUnique` |
| PyText.LetterMatchIsWordChar | app1_parser.py:58-67 | a character that matches a lower-case pattern letter ignoring case is a word character |
| PyText.NonWordMatchesItself | app1_parser.py:58-67 | a character that is not a word character matches only itself |
| PyText.CharMatchFacts | app1_parser.py:58-67 | for every character: the two facts above, and that it matches at most one lower-case letter or space |
| PyText.CharMatchUnique | app1_parser.py:58-67 | a character matches at most one lower-case pattern letter or space |
| PyText.EachPrefixed | app2_notion_uploader_v3.py:90-93 | the separator before each item, as a reference for `Join`; `JoinPrefixed` connects the two |
| PyText.DecimalValue | app1_parser.py:78-79 | the base-10 value `int()` reads from a digit string; stated by `DecimalSnoc` and `DecimalOfNatToString` |
| PyText.DecimalOfNatToString | app1_parser.py:78-79 | a number's decimal digits read back in base 10 give the number |
| Json.Truthy | app2_notion_uploader_v3.py:62 | Python's `bool()`: None, False, zero and the empty string, list and dict are falsy. It is also used at app1_parser.py:161 and here at lines 128, 136 and 149, and is stated where used, by `MergedFillsFalsy`, `FalseVisaReplaced`, `GetFirstPageId`, `DuplicateCheck` and `UpsertOfFound` |
| Json.Get | app2_notion_uploader_v3.py:123 | `d.get(k, default)`: the value when the key is present, the default otherwise |
| TextNormalizer.ReplaceAbsent | app1_parser.py:36-37 | `replace` of a character that does not occur changes nothing |
| TextNormalizer.ReplaceCharChars | app1_parser.py:36-37 | after `replace(c, t)` the characters are those of `t` and those of the input other than `c`, and all of the latter survive |
| TextNormalizer.FoldOutcome | app1_parser.py:32-37 | after the replacement loop no en dash, em dash or NBSP is left and every bullet is followed by whitespace |
| TextNormalizer.CollapseWhitespace | app1_parser.py:38 | `re.sub(r"\s+", " ")`: empty exactly for empty input, and the first character is kept or becomes the one space |
| TextNormalizer.CollapseShape | app1_parser.py:38 | the collapsed text has no whitespace but single spaces, and every other character comes from the input |
| TextNormalizer.CollapseKeepsBulletsSpaced | app1_parser.py:33-38 | collapsing keeps a space after every bullet |
| TextNormalizer.CollapseNewlines | app1_parser.py:39 | `re.sub(r"\n{2,}", "\n\n")` adds no character and leaves newline-free text alone |
| TextNormalizer.NewlineRuleIsNoOp | app1_parser.py:38-39 | whitespace collapsing removes every newline, so the newline rule never changes anything |
| TextNormalizer.StripKeepsShape | app1_parser.py:40 | stripping keeps single spacing and the bullet rule, and leaves no space at either end |
| TextNormalizer.CleanedIsClean | app1_parser.py:29-40 | every `clean_text` result is stripped and single-spaced, with no newline, dash or NBSP, and every bullet but a final one is followed by a space |
| TextNormalizer.RefoldCollapses | app1_parser.py:33-38 | on clean text the bullet fold adds a space that collapsing removes again, except after a final bullet |
| TextNormalizer.FoldsOfClean | app1_parser.py:32-37 | on clean text only the bullet entry of the replacement loop changes anything |
| TextNormalizer.StripBulletTrail | app1_parser.py:40 | clean text with the one space a final bullet gains strips back to itself |
| TextNormalizer.CleanOfClean | app1_parser.py:29-40 | non-empty clean text is a fixed point of `clean_text` |
| TextNormalizer.CleanIdempotent | app1_parser.py:29-40 | `clean_text(clean_text(x)) == clean_text(x)` |
| TextNormalizer.CleanText | app1_parser.py:29-40 | the method (replacement loop, two substitutions, strip) returns `Cleaned(text)`: `""` for `None` or `""`, and otherwise clean text without a newline |
| TextNormalizer.Cleaned | app1_parser.py:29-40 | `clean_text`; its properties are stated by `CleanedIsClean`, `CleanOfClean`, `CleanIdempotent` and `CleanText` |
| TextNormalizer.ReplaceChar | app1_parser.py:37 | `str.replace` of one character; `ReplaceCharChars` and `ReplaceAbsent` state which characters it keeps and adds |
| TextNormalizer.ApplyFolds | app1_parser.py:36-37 | the replacement loop, in the dict's order; stated by `FoldOutcome`, `FoldsOfClean` and `CleanText` |
| Patterns.FindIgnoreCase | app1_parser.py:46 | the first position at or after `from` where the literal occurs ignoring case, or none when it occurs nowhere |
| Patterns.FindIgnoreCaseFinds | app1_parser.py:46 | `re.search(p, s, re.I)` succeeds exactly when the literal occurs |
| Patterns.FirstBranch | app1_parser.py:84-86 | the first alternative, in pattern order, that matches at a position |
| Patterns.SearchIgnoreCase | app1_parser.py:84-88 | the leftmost position where some alternative matches and the first alternative there, or none when none matches anywhere |
| Patterns.ScanHeadingMarker | app1_parser.py:45 | true exactly when some `#` is followed by whitespace |
| Patterns.ScanHeadingMarkerCorrect | app1_parser.py:45 | the scan succeeds exactly when `#+\s` matches |
| Patterns.ScanBoldClose | app1_parser.py:45 | a closing `**` exists with no newline before it |
| Patterns.ScanBold | app1_parser.py:45 | true exactly when `\*\*.+\*\*` matches: two `**` with at least one character and no newline between them |
| Patterns.ScanLinkClose | app1_parser.py:45 | a `)` exists with no newline before it |
| Patterns.ScanLinkMiddle | app1_parser.py:45 | a `](` that a valid `.+\)` completes exists with no newline before it |
| Patterns.ScanLink | app1_parser.py:45 | a `[` that the rest of `\[.+\]\(.+\)` completes exists |
| Patterns.ScanLinkCorrect | app1_parser.py:45 | the scan succeeds exactly when `\[.+\]\(.+\)` matches |
| Patterns.LinkInScanned | app1_parser.py:45 | a link match is found by the scan |
| Patterns.ScannedLinkIn | app1_parser.py:45 | what the scan finds is a link match |
| MarkdownConverter.DetectFormatClassifies | app1_parser.py:43-50 | "html" exactly when an html pattern occurs ignoring case; "markdown" exactly when none does and a markdown pattern matches case-sensitively; "plain" otherwise |
| MarkdownConverter.DetectFormat | app1_parser.py:43-50 | `detect_format`; `DetectFormatClassifies` states which text gets each of the three answers |
| MarkdownConverter.FirstWordMatch | app1_parser.py:58-67 | the first alternative whose word-bounded match succeeds at a position, so the regex backtracks into later ones |
| MarkdownConverter.SubFromMatch | app1_parser.py:69-70 | where an alternative matches, `re.sub` emits the heading and resumes after the match |
| MarkdownConverter.SubFromCopy | app1_parser.py:69-70 | where nothing matches, `re.sub` copies one character |
| MarkdownConverter.ConvertToMarkdown | app1_parser.py:53-71 | the method (markdownify for html, then the ten substitutions in order, then strip) returns `Converted(text, markdownify)` |
| MarkdownConverter.Converted | app1_parser.py:53-71 | `convert_to_markdown`; stated by `ConvertToMarkdown`, `MarkdownifyOnlyForHtml`, `EveryOccurrenceReplaced`, `CompanyOverviewPreempted` and `InputResponsibilitiesConverted` |
| MarkdownConverter.MarkdownifyOnlyForHtml | app1_parser.py:54-56 | `markdownify` is consulted only for text classified html, and then the loop starts from its output |
| MarkdownConverter.Reach | app1_parser.py:69-70 | if no match jumps over a position, the substitution's output ends with its output from there |
| MarkdownConverter.Verbatim | app1_parser.py:69-70 | where no match starts, the text is copied unchanged |
| MarkdownConverter.EveryOccurrenceReplaced | app1_parser.py:58-70 | for a rule of single words, every word-bounded occurrence of an alternative becomes the heading |
| MarkdownConverter.SingleWordsNotStraddled | app1_parser.py:58-70 | no match of a single-word rule that starts before a word-bounded occurrence runs into it |
| MarkdownConverter.ResponsibilitiesReplaced | app1_parser.py:59 | every word-bounded, case-insensitive "responsibilities", "duties" or "tasks" becomes "## Responsibilities" |
| MarkdownConverter.CompanyOverviewNotStraddled | app1_parser.py:58 | no match of rule 1 that starts before a word-bounded "company overview" runs into it |
| MarkdownConverter.CompanyCopied | app1_parser.py:58 | rule 1 copies the "company " of "company overview" unchanged |
| MarkdownConverter.OverviewMatched | app1_parser.py:58 | at that "overview", rule 1 matches its second alternative |
| MarkdownConverter.CompanyOverviewPreempted | app1_parser.py:58-69 | rule 1 turns "company overview" into "company " + "## Job Description" before rule 9 runs |
| MarkdownConverter.HeadingSurvives | app1_parser.py:69-70 | a rule none of whose alternatives can match inside "## Responsibilities" leaves each such heading in place |
| MarkdownConverter.LaterRulesAvoidResponsibilities | app1_parser.py:60-67 | rules 3 to 10 cannot match inside "## Responsibilities" |
| MarkdownConverter.ChainSurvives | app1_parser.py:69-70 | once written, the heading survives every later rule |
| MarkdownConverter.StripKeepsOccurrence | app1_parser.py:71 | the final `strip()` keeps the heading |
| MarkdownConverter.RulesAfterSecond | app1_parser.py:57-70 | the loop is rule 1, then rule 2, then the other eight rules in dict order |
| MarkdownConverter.ConvertedHasResponsibilities | app1_parser.py:53-71 | a word-bounded "responsibilities", "duties" or "tasks" reaching rule 2 leaves "## Responsibilities" in what `convert_to_markdown` returns |
| MarkdownConverter.RuleOneAndTwoInitials | app1_parser.py:58-59 | no phrase of rule 1 starts with the first letter of a rule-2 word, and "duties" is the only rule-2 word starting with `d` |
| MarkdownConverter.RuleTwoWordEdges | app1_parser.py:59 | a word-bounded match of a rule-2 word is all word characters, with no word character on either side |
| MarkdownConverter.RuleOneNotInside | app1_parser.py:58-59 | no match of rule 1 starts inside a word-bounded rule-2 word |
| MarkdownConverter.RuleOneOverlapAtSpace | app1_parser.py:58 | a rule-1 match that starts before a word-bounded rule-2 word and reaches it can only be "job description", with the word starting just after its space |
| MarkdownConverter.RuleOneEndsBefore | app1_parser.py:58-59 | a rule-1 match that starts before a word-bounded rule-2 word ends before it, with a character to spare |
| MarkdownConverter.ReachByCopy | app1_parser.py:69-70 | when every match starting before a position ends before it, the substitution output ends with the character before that position followed by the output from it |
| MarkdownConverter.SubFromHead | app1_parser.py:69-70 | the substitution output from a position is empty exactly at the end, and otherwise starts with the character there or with the heading |
| MarkdownConverter.WordMatchCopied | app1_parser.py:69-70 | where a text holds the letters of a word-bounded rule-2 word with a non-word character or an edge on each side, that word is a word-bounded match there |
| MarkdownConverter.RuleOneMatchesEndBefore | app1_parser.py:58 | every rule-1 match starting before a word-bounded rule-2 word ends before the character that precedes the word |
| MarkdownConverter.RuleOneOutputEnds | app1_parser.py:58-70 | the output of rule 1 ends with the character before a rule-2 word, the word as written, and rule 1's output from after the word |
| MarkdownConverter.RuleOneKeepsWord | app1_parser.py:58-70 | a word-bounded "responsibilities", "duties" or "tasks" in the input is still a word-bounded match after rule 1 |
| MarkdownConverter.InputResponsibilitiesConverted | app1_parser.py:53-71 | a word-bounded "responsibilities", "duties" or "tasks" in the (markdownified) input leaves "## Responsibilities" in what `convert_to_markdown` returns |
| MarkdownConverter.LooksLikeHtml | app1_parser.py:46 | some html pattern occurs, ignoring case; `DetectFormatClassifies` ties it to the answer |
| MarkdownConverter.LooksLikeMarkdown | app1_parser.py:48 | some markdown pattern occurs; `DetectFormatClassifies`, `ScanHeadingMarkerCorrect`, `ScanBold` and `ScanLinkCorrect` tie it to the scanners |
| MarkdownConverter.Boundary | app1_parser.py:58-67 | `\b` at a position, judged on the whole string; stated by `BoundaryAtEnds`, `RuleTwoWordEdges` and `WordMatchCopied` |
| MarkdownConverter.BoundaryAtEnds | app1_parser.py:58-67 | at either end of the text, `\b` holds exactly when the text starts, or ends, with a word character |
| MarkdownConverter.WordMatchAt | app1_parser.py:58-67 | `\b` + word + `\b` ignoring case; stated by `FirstWordMatch`, `RuleTwoWordEdges`, `WordMatchCopied` and `EveryOccurrenceReplaced` |
| MarkdownConverter.SubFrom | app1_parser.py:70 | `re.sub` scanning from a position; stated by `SubFromMatch`, `SubFromCopy`, `SubFromHead`, `ReachByCopy`, `Verbatim` and `EveryOccurrenceReplaced` |
| MarkdownConverter.ApplyRule | app1_parser.py:70 | one `re.sub(p, rpl, text)` over the whole text; stated by `EveryOccurrenceReplaced`, `HeadingSurvives` and `RuleOneKeepsWord` |
| MarkdownConverter.ApplyRules | app1_parser.py:69-70 | the loop over the mapping, each substitution applied to the previous output; stated by `RulesAfterSecond`, `ChainSurvives` and `ConvertToMarkdown` |
| MarkdownConverter.Prepared | app1_parser.py:54-56 | the text the loop starts from; `MarkdownifyOnlyForHtml` states that `md()` is applied exactly for html |
| HeuristicExtractor.RunLength | app1_parser.py:76 | the length a greedy character-class repetition takes stays inside the text |
| HeuristicExtractor.RunLengthSpan | app1_parser.py:76 | the greedy run is all in the class, and the next character is not |
| HeuristicExtractor.SalaryAt | app1_parser.py:76 | the salary pattern anchored at a position, with groups that lie inside the text |
| HeuristicExtractor.SalaryAtSound | app1_parser.py:76 | what the scanner finds is a match of `\$([0-9,]+)\s*-\s*\$?([0-9,]+)` whose second group is maximal |
| HeuristicExtractor.SalaryShapeForced | app1_parser.py:76 | every match at a position is found by the scanner, with the same group 1 and a group 2 no longer than its own |
| HeuristicExtractor.FindSalary | app1_parser.py:76 | `re.search` of the salary pattern: the match found starts at or after the search start and is the anchored match there |
| HeuristicExtractor.FindSalaryFirst | app1_parser.py:76 | the search skips only positions where the pattern does not match |
| HeuristicExtractor.FindSalaryLeftmost | app1_parser.py:76 | a match is found whenever one exists, and none starts before it |
| HeuristicExtractor.LocationAt | app1_parser.py:81 | the location pattern anchored at a position, inside the text |
| HeuristicExtractor.LocationAtSound | app1_parser.py:81 | what the scanner finds matches `([A-Z][a-z]+,\s*[A-Z]{2})` |
| HeuristicExtractor.LocationShapeForced | app1_parser.py:81 | a location match is unique at its start, and the scanner finds it |
| HeuristicExtractor.FindLocation | app1_parser.py:81 | `re.search` of the location pattern |
| HeuristicExtractor.FindLocationFirst | app1_parser.py:81 | the search finds the leftmost location match |
| HeuristicExtractor.CapitalizeAscii | app1_parser.py:88 | `capitalize()` of ASCII text that matches a lower-case word is the word with its first letter upper-cased |
| HeuristicExtractor.CapitalizedWorkMode | app1_parser.py:86-88 | the work mode read from ASCII text is "Remote", "Hybrid" or "On-site", whatever its case in the text |
| HeuristicExtractor.CapitalizedAt | app1_parser.py:86-88 | a work mode matched ignoring case in ASCII text at a position capitalises to "Remote", "Hybrid" or "On-site" |
| HeuristicExtractor.CapitalizedMatch | app1_parser.py:88 | ASCII text that matches a work mode letter by letter capitalises to that mode's display form |
| HeuristicExtractor.HeuristicExtract | app1_parser.py:74-89 | the method (filling the dict one pattern at a time) returns `Heuristics(text)`, including its `ValueError` for an amount `int()` refuses |
| HeuristicExtractor.Heuristics | app1_parser.py:74-89 | `heuristic_extract`; stated by `HeuristicExtract`, `HeuristicsFailure`, `SalaryKeys`, `LocationKey`, `VisaKey`, `RemoteKey`, `HeuristicsKeysBounded` and `OverlongAmountRaises` |
| HeuristicExtractor.RemoveCommas | app1_parser.py:78-79 | a salary group without its commas is a digit string, and is empty exactly when the group was all commas |
| HeuristicExtractor.HeuristicsFailure | app1_parser.py:76-79 | `heuristic_extract` raises exactly when the salary pattern matches with an amount that, once its commas are removed, is empty or has more than 4300 digits, and it raises `ValueError` |
| HeuristicExtractor.PyIntOfNatToString | app1_parser.py:78-79 | `int()` reads the decimal digits of a number back as that number, and refuses them exactly when there are more than 4300 |
| HeuristicExtractor.DigitRangeFound | app1_parser.py:76 | in `"$" + ds + "-1"` with `ds` all digits, the salary pattern matches the whole text, with `ds` and `"1"` as its groups |
| HeuristicExtractor.DigitRangeGroups | app1_parser.py:76 | the two groups of that match are `ds` and `"1"` |
| HeuristicExtractor.DigitsHaveNoComma | app1_parser.py:78 | a digit string holds no comma, so removing commas leaves it as it is |
| HeuristicExtractor.SalaryFieldsOfPlainGroups | app1_parser.py:76-80 | with comma-free digit groups and an upper bound within the limit, reading the amounts raises exactly when the lower one has more than 4300 digits; otherwise the bounds are the groups in base 10 and the currency is "USD" |
| HeuristicExtractor.PlainRangeHeuristics | app1_parser.py:74-80 | with such groups, `heuristic_extract` raises exactly when the lower amount has more than 4300 digits |
| HeuristicExtractor.HeuristicsFailsWithSalary | app1_parser.py:74-80 | `heuristic_extract` raises exactly when reading the salary amounts raises |
| HeuristicExtractor.DigitRangeHeuristics | app1_parser.py:74-80 | `heuristic_extract` of `"$" + ds + "-1"` raises exactly when `ds` has more than 4300 digits |
| HeuristicExtractor.OverlongAmountRaises | app1_parser.py:76-78 | `heuristic_extract` of `"$"`, 4301 ones and `"-1"` raises `ValueError` |
| HeuristicExtractor.OthersLackSalaryKeys | app1_parser.py:81-88 | only the salary pattern sets the salary keys |
| HeuristicExtractor.SalaryKeys | app1_parser.py:76-80 | the three salary keys are present together exactly when the pattern matches; the bounds are the amounts read without commas, and the currency is "USD" |
| HeuristicExtractor.LocationKey | app1_parser.py:81-83 | `location` is present exactly when the pattern matches, and holds the first match |
| HeuristicExtractor.SearchNoneIffAbsent | app1_parser.py:84-86 | an alternation finds nothing exactly when no branch occurs anywhere |
| HeuristicExtractor.VisaKey | app1_parser.py:84-85 | `visa_sponsorship` is always a boolean, and false exactly when one of the four phrases occurs ignoring case |
| HeuristicExtractor.OptionDeniesSponsorship | app1_parser.py:84-85 | "option" already makes `visa_sponsorship` false |
| HeuristicExtractor.RemoteKey | app1_parser.py:86-88 | `remote_hybrid` is present exactly when a work mode occurs, and holds the first one capitalised |
| HeuristicExtractor.RemoteKeyAscii | app1_parser.py:86-88 | for ASCII text that value is "Remote", "Hybrid" or "On-site" |
| HeuristicExtractor.HeuristicsKeysBounded | app1_parser.py:75-89 | no key outside the six is set, and the visa flag always is |
| HeuristicExtractor.WholeMatchFound | app1_parser.py:76 | a salary match that starts the text and runs to its end is what the search finds |
| HeuristicExtractor.SalaryExampleShape | app1_parser.py:76 | "$80,000 - $95,000" matches the salary pattern as a whole, with groups "80,000" and "95,000" |
| HeuristicExtractor.SalaryExampleFound | app1_parser.py:76 | the search finds that match |
| HeuristicExtractor.SalaryExampleGroups | app1_parser.py:76 | its two groups are "80,000" and "95,000" |
| HeuristicExtractor.SalaryExampleNotCommas | app1_parser.py:76-79 | neither group is made only of commas, so `int()` does not raise |
| HeuristicExtractor.SalaryExampleCommas | app1_parser.py:78-79 | the groups without commas are "80000" and "95000" |
| HeuristicExtractor.SalaryExampleLow | app1_parser.py:78 | `int("80000")` is 80000 |
| HeuristicExtractor.SalaryExampleHigh | app1_parser.py:79 | `int("95000")` is 95000 |
| HeuristicExtractor.SalaryFieldsOfGroups | app1_parser.py:76-80 | a match whose groups, once commas are removed, are non-empty and have at most 4300 digits gives those bounds and "USD" |
| HeuristicExtractor.SalaryExample | app1_parser.py:76-80 | for "$80,000 - $95,000" the salary keys are 80000, 95000 and "USD" |
| HeuristicExtractor.PyInt | app1_parser.py:78-79 | `int()` of an amount: `ValueError` when it is empty, holds a non-digit, or has more than 4300 digits; stated by `PyIntOfNatToString`, `HeuristicsFailure`, `SalaryFieldsOfGroups` and `OverlongAmountRaises` |
| HeuristicExtractor.AmountRejected | app1_parser.py:78-79 | the groups `int()` refuses once commas are removed; `HeuristicsFailure` states that they are exactly the failing case |
| HeuristicExtractor.LowGroup | app1_parser.py:78 | `salary.group(1)`; its value in the result is stated by `SalaryKeys` and `SalaryFieldsOfGroups` |
| HeuristicExtractor.HighGroup | app1_parser.py:79 | `salary.group(2)`; its value in the result is stated by `SalaryKeys` and `SalaryFieldsOfGroups` |
| HeuristicExtractor.LocationText | app1_parser.py:83 | `loc.group(1)`; `LocationKey` states that it is the stored location |
| HeuristicExtractor.MatchedText | app1_parser.py:88 | `remote.group(1)`; `RemoteKey` states that its capitalised form is stored |
| HeuristicExtractor.SalaryFields | app1_parser.py:76-80 | the salary block; stated by `SalaryFieldsKeys`, `HeuristicsFailure`, `SalaryFieldsOfGroups` and `SalaryExample` |
| HeuristicExtractor.SalaryFieldsKeys | app1_parser.py:76-80 | the three salary keys are set exactly when the pattern matches; the bounds are the groups read without commas, and the currency is "USD" |
| HeuristicExtractor.LocationField | app1_parser.py:81-83 | the location block; stated by `LocationKey` and `OthersLackSalaryKeys` |
| HeuristicExtractor.VisaField | app1_parser.py:84-85 | the visa block; stated by `VisaKey` and `OptionDeniesSponsorship` |
| HeuristicExtractor.RemoteField | app1_parser.py:86-88 | the work-mode block; stated by `RemoteKey` and `RemoteKeyAscii` |
| HeuristicExtractor.LowerChar | app1_parser.py:88 | `str.lower()` of one character a work-mode match can hold; stated by `LowerCharOfMatch` and `LowerAllAscii` |
| HeuristicExtractor.LowerCharOfMatch | app1_parser.py:88 | a character matching a lower-case ASCII letter lowers to that letter, except that U+0130 lowers to "i" and a combining dot, and U+0131 and U+017F stay |
| HeuristicExtractor.TitleChar | app1_parser.py:88 | the title case `capitalize` gives the first character; stated by `TitleCharOfMatch` |
| HeuristicExtractor.TitleCharOfMatch | app1_parser.py:88 | a character matching a lower-case ASCII letter title-cases to that letter's capital, except that U+0130 and the Kelvin sign stay |
| HeuristicExtractor.Capitalize | app1_parser.py:88 | `.capitalize()` of the matched text; stated by `CapitalizeAscii`, `CapitalizedMatch` and `RemoteKey` |
| HeuristicExtractor.LowerAllAscii | app1_parser.py:88 | ASCII text matching a lower-case ASCII word, ignoring case, lowers to that word |
| ExtractionClient.Attempt | app1_parser.py:131-149 | an attempt that raised, had no content, or had content that is blank after `strip()` yields nothing |
| ExtractionClient.FirstSuccess | app1_parser.py:130-149 | the first backend, in order, whose attempt succeeds; every earlier one failed, and with none all failed |
| ExtractionClient.ParseWithFallback | app1_parser.py:130-152 | the loop returns the first successful parse or `{}`, and calls the backends in order up to and including the first success, no later one |
| ExtractionClient.FallbackOrder | app1_parser.py:130-152 | a "gpt-5" success hides "gpt-4o"; "gpt-4o" is used only after "gpt-5" fails; `{}` exactly when both fail |
| ExtractionClient.Parsed | app1_parser.py:130-152 | `parse_with_gpt5`; stated by `ParseWithFallback` and `FallbackOrder` |
| ExtractionClient.MergeStep | app1_parser.py:160-162 | one iteration of the merge loop extends the merge by one heuristic key |
| ExtractionClient.MergeHeuristics | app1_parser.py:160-162 | on a dict the loop returns the merge; on any other answer it raises `TypeError`, unless there are no heuristic keys |
| ExtractionClient.MergeInto | app1_parser.py:160-162 | the in-place loop on a dict computes `Merged(parsed, heuristics)` |
| ExtractionClient.MergedKeys | app1_parser.py:160-162 | the keys are those of both dicts; an absent or falsy parsed value takes the heuristic value; every other key keeps its parsed value |
| ExtractionClient.Merged | app1_parser.py:160-162 | the merge of `run`; stated by `MergedKeys`, `MergedFillsFalsy`, `MergeIdempotent` and `MergeInto` |
| ExtractionClient.MergedFillsFalsy | app1_parser.py:160-162 | every heuristic key is present afterwards, truthy unless the heuristic value itself is falsy |
| ExtractionClient.FalseVisaReplaced | app1_parser.py:160-162 | a model-given `False` for `visa_sponsorship` is replaced by the heuristic value |
| ExtractionClient.MergeIdempotent | app1_parser.py:160-162 | merging the same heuristics a second time changes nothing |
| ExtractionClient.Run | app1_parser.py:155-163 | the method returns `Pipeline(jd, ...)` |
| ExtractionClient.Pipeline | app1_parser.py:155-163 | `run`; stated by `Run`, `PipelineOutcome` and `AllBackendsFail` |
| ExtractionClient.PipelineOutcome | app1_parser.py:155-163 | `run` fails exactly when the heuristics raise or the answer is not a dict; otherwise the record holds every heuristic key and the Markdown is the converted cleaned text |
| ExtractionClient.AllBackendsFail | app1_parser.py:151-163 | when every backend fails, `run` returns exactly the heuristics |
| ExtractionClient.MergedIntoEmpty | app1_parser.py:160-162 | merging into `{}` gives the heuristics |
| ExtractionClient.Outcome | app1_parser.py:131-146 | one backend attempt: the call's reply, read by `Attempt`; how attempts chain is stated by `FirstSuccess`, `ParseWithFallback` and `FallbackOrder` |
| NotionProps.HashJobText | app2_notion_uploader_v3.py:40-43 | the fingerprint is the first 16 characters of the digest of the base string |
| NotionProps.FingerprintOfBase | app2_notion_uploader_v3.py:42-43 | the fingerprint depends only on `f"{company}_{text}"`, company first |
| NotionProps.FingerprintBaseAmbiguous | app2_notion_uploader_v3.py:42 | ("b_c", "a") and ("c", "a_b") share a fingerprint whatever the hash |
| NotionProps.FingerprintBaseSeparatesCompanies | app2_notion_uploader_v3.py:42 | for the same text, two companies give one base string only when they are the same company |
| NotionProps.FingerprintBaseExample | app2_notion_uploader_v3.py:42 | ("X", "Acme") and ("X", "Acme2") give different base strings |
| NotionProps.GetFirstPageId | app2_notion_uploader_v3.py:60-64 | `None` for a falsy result, a result without "results", or falsy results; otherwise `results[0]["id"]`, with the exceptions Python raises |
| NotionProps.FirstPageOfResults | app2_notion_uploader_v3.py:60-64 | on a Notion-shaped result, `None` exactly when the list is empty, otherwise the first page's id |
| NotionProps.ContentOfTextProp | app2_notion_uploader_v3.py:73-78 | a title or rich-text property holds the content it was built from |
| NotionProps.RelationTargetOf | app2_notion_uploader_v3.py:147 | a relation property points to the id it was built from |
| NotionProps.Strings | app2_notion_uploader_v3.py:90 | the strings of a list, or `None` exactly when some item is not a string |
| NotionProps.JobPropsKeys | app2_notion_uploader_v3.py:70-81 | the job properties are the eight fields, and Status is always "Parsed" |
| NotionProps.JobPropsCapped | app2_notion_uploader_v3.py:75-76 | Job Description is the text cut to 1900 characters, and Parsed Snapshot the serialised record cut the same way |
| NotionProps.JobPropsDefaults | app2_notion_uploader_v3.py:73-74 | the title defaults to "Untitled Job" and the company to "Unknown Company", only when absent |
| NotionProps.JobPropsFingerprint | app2_notion_uploader_v3.py:78 | the fingerprint field holds the hash it is given |
| NotionProps.BuildJobProps | app2_notion_uploader_v3.py:70-81 | `build_job_props`; stated by `JobPropsKeys`, `JobPropsCapped`, `JobPropsDefaults` and `JobPropsFingerprint` |
| NotionProps.BulletsOfStrings | app2_notion_uploader_v3.py:90-93 | a list of strings becomes `"\n• "` before each item (`EachPrefixed`), so an empty list is a lone bullet |
| NotionProps.RegionsDefault | app2_notion_uploader_v3.py:96 | with no "regions" key (or no location), the one region is "Global" |
| NotionProps.RegionsCommaFree | app2_notion_uploader_v3.py:96 | each region has its commas removed, one region per item |
| NotionProps.RoleLocationMustBeDict | app2_notion_uploader_v3.py:96 | a location that is not a dict makes `.get` raise `AttributeError` |
| NotionProps.RolePropsFacts | app2_notion_uploader_v3.py:84-101 | the role properties are the thirteen fields; the title defaults to "Untitled Role"; the one target company defaults to "Unknown Company"; Regions lists the regions |
| NotionProps.BuildRoleProps | app2_notion_uploader_v3.py:84-101 | `build_role_props`; stated by `RolePropsFacts`, `RegionsDefault`, `RegionsCommaFree`, `RoleLocationMustBeDict` and `BulletsOfStrings` |
| NotionProps.CompanyPropsFacts | app2_notion_uploader_v3.py:104-114 | the company properties build exactly when the industry keywords are absent, a list or a string; they are the seven fields, and the name defaults to "Unknown Company" |
| NotionProps.BuildCompanyProps | app2_notion_uploader_v3.py:104-114 | `build_company_props`; stated by `CompanyPropsFacts` |
| NotionProps.Display | app2_notion_uploader_v3.py:42 | the f-string rendering of the company; `FingerprintOfCompany` states what it gives for a string, a missing key and any other value |
| NotionProps.FingerprintBase | app2_notion_uploader_v3.py:42 | `f"{company}_{text}"`; stated by `FingerprintOfBase`, `FingerprintBaseAmbiguous`, `FingerprintBaseSeparatesCompanies` and `HashJobText` |
| NotionProps.FirstId | app2_notion_uploader_v3.py:64 | `results[0]["id"]` for truthy results; stated by `GetFirstPageId` and `FirstPageOfResults` |
| NotionProps.IdOf | app2_notion_uploader_v3.py:64 | `item["id"]`: `KeyError` on a dict without "id", `TypeError` on anything else; `FirstPageOfResults` states the page case |
| NotionProps.TextProp | app2_notion_uploader_v3.py:73-75 | the title and rich-text property shape; `ContentOfTextProp` reads the content back |
| NotionProps.ContentOf | app2_notion_uploader_v3.py:73-75 | the content of such a property; `ContentOfTextProp` is the round trip, and the builder lemmas state each field's content through it |
| NotionProps.MultiSelect | app2_notion_uploader_v3.py:95-98 | the multi-select shape, one name per item; `RoleMapLists` and `RolePropsFacts` state its use |
| NotionProps.Relation | app2_notion_uploader_v3.py:147 | the relation shape; `RelationTargetOf` reads the id back, and `JobPagePropsFacts` states both relations of the job page |
| NotionProps.RelationTarget | app2_notion_uploader_v3.py:147 | the id a relation points to; `RelationTargetOf` is the round trip |
| NotionProps.Iterate | app2_notion_uploader_v3.py:90-97 | the items `for x in v` visits; stated by `RegionsCommaFree` and `JoinValueSucceeds` |
| NotionProps.JoinValue | app2_notion_uploader_v3.py:94 | `sep.join(v)`; stated by `JoinValueSucceeds` and `BulletsOfStrings` |
| NotionProps.JoinValueSucceeds | app2_notion_uploader_v3.py:94 | `sep.join(v)` succeeds exactly on a string or a list of strings, and otherwise raises `TypeError` |
| NotionProps.Bullets | app2_notion_uploader_v3.py:90-93 | the bullet-list rendering; stated by `BulletsOfStrings` |
| NotionProps.Regions | app2_notion_uploader_v3.py:96 | the comma-free region list; stated by `RegionsDefault`, `RegionsCommaFree` and `GlobalRegion` |
| NotionProps.GlobalRegion | app2_notion_uploader_v3.py:96 | the default `["Global"]` gives the one region "Global" |
| NotionProps.GetFrom | app2_notion_uploader_v3.py:96 | `.get` on a value that must be a dict; stated by `RegionsDefault` and `RoleLocationMustBeDict` |
| NotionProps.Snapshot | app2_notion_uploader_v3.py:76 | `json.dumps(parsed)[:1900]`; `JobPropsCapped` states the cap and the prefix |
| NotionProps.RoleValues | app2_notion_uploader_v3.py:86-98 | the values of `build_role_props` that can raise, in dict-literal order; stated by `RolePropsFacts` and `RoleLocationMustBeDict` |
| NotionProps.RoleMap | app2_notion_uploader_v3.py:87-101 | the role dict literal; stated by `RoleMapFacts`, `RoleMapKeys`, `RoleMapTitle` and `RoleMapLists` |
| NotionProps.RoleMapFacts | app2_notion_uploader_v3.py:87-101 | the thirteen keys, the title with "Untitled Role" as default, the target company and the regions |
| NotionProps.RoleMapKeys | app2_notion_uploader_v3.py:87-101 | the role properties have exactly the thirteen keys |
| NotionProps.RoleMapTitle | app2_notion_uploader_v3.py:88 | the role title is `position_title`, or "Untitled Role" when it is absent |
| NotionProps.RoleMapLists | app2_notion_uploader_v3.py:96-98 | the target company is the company, or "Unknown Company"; the regions are the given list |
| NotionProps.CompanyMap | app2_notion_uploader_v3.py:106-114 | the company dict literal; stated by `CompanyMapFacts`, `CompanyMapKeys` and `CompanyMapName` |
| NotionProps.CompanyMapFacts | app2_notion_uploader_v3.py:106-114 | the seven keys, and the name with "Unknown Company" as default |
| NotionProps.CompanyMapKeys | app2_notion_uploader_v3.py:106-114 | the company properties have exactly the seven keys |
| NotionProps.CompanyMapName | app2_notion_uploader_v3.py:107 | the name is `company`, or "Unknown Company" when it is absent |
| NotionStore.PageIdInjective | app2_notion_uploader_v3.py:141 | distinct page numbers give distinct page ids |
| NotionStore.MatchingIds | app2_notion_uploader_v3.py:46-57 | no more results than pages; `MatchingIdsFromPages` and `MatchingIdsComplete` state that they are exactly the matching pages' ids |
| NotionStore.MatchingIdsNonEmpty | app2_notion_uploader_v3.py:127-128 | the results are non-empty exactly when some page matches the filter |
| NotionStore.MatchingIdsFromPages | app2_notion_uploader_v3.py:46-57 | every result is the id of a matching page |
| NotionStore.QueryOf | app2_notion_uploader_v3.py:46-57 | `notion_query`; stated by `MatchingIds`, `MatchingIdsNonEmpty`, `MatchingIdsFromPages` and `Store.Query`: it raises exactly when the database is unreachable |
| NotionStore.FindPage | app2_notion_uploader_v3.py:137 | the index of the page with a given id, or none when no page has it |
| NotionStore.FindIndex | app2_notion_uploader_v3.py:137 | the method's backward search returns `FindPage(pages, id)` |
| NotionStore.CreatePreservesValid | app2_notion_uploader_v3.py:140-141 | a create keeps page numbers below the next one and distinct, and the new id is not already used |
| NotionStore.UpdatePreservesValid | app2_notion_uploader_v3.py:137 | an update keeps every page number, so numbers stay below the next one and distinct |
| NotionStore.FindPageUnique | app2_notion_uploader_v3.py:137 | in a valid store, the id of a page finds that page and no other |
| NotionStore.UpdateAt | app2_notion_uploader_v3.py:137 | in a valid store that takes writes, updating a page by its id merges the properties into that page only |
| NotionStore.CreateEffect | app2_notion_uploader_v3.py:140-141 | a create succeeds exactly when the database takes writes (it is neither unreachable nor refusing); it then appends one page with the properties, logs it and returns its id, and changes no other database; a failed create changes nothing |
| NotionStore.UpdateEffect | app2_notion_uploader_v3.py:137 | an update succeeds exactly when the database takes writes and the id names one of its pages; it then changes that page only, and logs it; a failed update changes nothing |
| NotionStore.CreateOf | app2_notion_uploader_v3.py:140-141 | `notion.pages.create`; stated by `CreateEffect`, `CreatePreservesValid` and `Store.Create` |
| NotionStore.UpdateOf | app2_notion_uploader_v3.py:137 | `notion.pages.update`; stated by `UpdateEffect`, `UpdatePreservesValid`, `UpdateAt` and `Store.Update` |
| NotionStore.Store.constructor | app2_notion_uploader_v3.py:26-34 | an empty, valid store whose unreachable databases and write-refusing databases are given |
| NotionStore.Store.Query | app2_notion_uploader_v3.py:46-57 | `notion_query`: the method's scan returns `QueryOf(State(), db, f)` and changes nothing |
| NotionStore.Store.Create | app2_notion_uploader_v3.py:140 | the new state and result are `CreateOf` of the old state |
| NotionStore.Store.Update | app2_notion_uploader_v3.py:137 | the new state and result are `UpdateOf` of the old state |
| NotionStore.Matches | app2_notion_uploader_v3.py:127-133 | the two filters: rich text equal to a value, and title containing one; stated by `MatchingIdsNonEmpty`, `MatchingIdsFromPages`, `MatchingIdsComplete`, `QueryFirstPage` and `DuplicateCheck` |
| NotionStore.MatchingIdsComplete | app2_notion_uploader_v3.py:46-57 | every matching page's `{"id": id}` is among the results |
| NotionStore.QueryResponse | app2_notion_uploader_v3.py:57 | the query's JSON body, with the matching ids as "results"; stated by `QueryFirstPage` |
| NotionStore.Writable | app2_notion_uploader_v3.py:137-162 | whether creates and updates of a database go through; stated by `CreateEffect`, `UpdateEffect`, `JobStepWrites` and `SaveSucceedsIff` |
| NotionSave.Slice60 | app2_notion_uploader_v3.py:133 | `v[:60]` gives a filter value exactly for a string, and it is the string's first 60 characters; a list fails at the API, a dict with `KeyError` and any other value with `TypeError` |
| NotionSave.IsDuplicate | app2_notion_uploader_v3.py:123-130 | the duplicate check; stated by `DuplicateCheck` and `SaveSkipsDuplicate` |
| NotionSave.Upsert | app2_notion_uploader_v3.py:135-141 | the update-or-create; stated by `UpsertWrites`, `UpsertAfterQuery`, `UpsertUpdatesMatch`, `UpsertReusesMatch` and `UpsertPreservesValid` |
| NotionSave.CompanyStep | app2_notion_uploader_v3.py:133-142 | the company block; stated by `CompanyStepWrites`, `CompanyStepSucceeds`, `CompanyStepUpserts` and `CompanyRecordReused` |
| NotionSave.RoleStep | app2_notion_uploader_v3.py:145-155 | the role block; stated by `RoleStepWrites`, `RoleStepSucceeds`, `RoleStepUpserts` and `RoleTemplateReused` |
| NotionSave.JobStep | app2_notion_uploader_v3.py:158-164 | the job block; stated by `JobStepWrites` and `JobPagePropsFacts` |
| NotionSave.SavedNew | app2_notion_uploader_v3.py:132-164 | the blocks after the duplicate check; stated by `SavedNewRecords`, `SavedNewNotNone`, `SavedNewFailure` and `SavedNewSucceeds` |
| NotionSave.Saved | app2_notion_uploader_v3.py:120-168 | `save_to_notion`; stated by `SaveRecordsJob`, `SaveSkipsDuplicate`, `SaveFailureKeepsJobs`, `SaveSucceedsIff`, `SavePreservesValid` and `SecondSaveIsDuplicate` |
| NotionSave.UpsertPage | app2_notion_uploader_v3.py:135-141 | the update-or-create on the store is `Upsert` of the old state |
| NotionSave.SaveCompany | app2_notion_uploader_v3.py:133-142 | the company block on the store is `CompanyStep` of the old state |
| NotionSave.SaveRole | app2_notion_uploader_v3.py:145-155 | the role block on the store is `RoleStep` of the old state |
| NotionSave.SaveJob | app2_notion_uploader_v3.py:158-164 | the job block on the store is `JobStep` of the old state |
| NotionSave.SaveNew | app2_notion_uploader_v3.py:132-164 | the company, role and job blocks on the store are `SavedNew` of the old state |
| NotionSave.SaveToNotion | app2_notion_uploader_v3.py:120-168 | `save_to_notion` on the store is `Saved` of the old state |
| NotionSave.UpdateWrites | app2_notion_uploader_v3.py:137 | a successful update writes one logged page of its database, which then holds the properties |
| NotionSave.CreateWrites | app2_notion_uploader_v3.py:140 | a create on a database that takes writes writes one logged page, which holds the properties |
| NotionSave.UpsertWrites | app2_notion_uploader_v3.py:135-141 | an upsert either fails and changes nothing, or writes the one page whose id it returns, which then holds the properties |
| NotionSave.QueryFirstPage | app2_notion_uploader_v3.py:60-64 | on a query response, no page id when nothing matched, otherwise the id of a matching page |
| NotionSave.UpdateExisting | app2_notion_uploader_v3.py:137 | updating a page by its own id succeeds on a database that takes writes |
| NotionSave.UpsertOfNone | app2_notion_uploader_v3.py:139-141 | with no id found, the upsert creates a page and returns the new id |
| NotionSave.UpsertUnwritable | app2_notion_uploader_v3.py:137-141 | an upsert into a database that does not take writes raises, whatever the query found |
| NotionSave.UpsertOfFound | app2_notion_uploader_v3.py:136-137 | with an id found, the upsert updates that page and returns its id |
| NotionSave.UpsertAfterQuery | app2_notion_uploader_v3.py:133-141 | after a query, a matching page is updated when one exists, otherwise a page is created |
| NotionSave.CompanyStepWrites | app2_notion_uploader_v3.py:133-142 | the company block fails with nothing written, or writes one company page holding the built properties |
| NotionSave.RoleStepWrites | app2_notion_uploader_v3.py:145-155 | the role block fails with nothing written, or writes one role page holding the built properties and the relation to the company |
| NotionSave.JobStepWrites | app2_notion_uploader_v3.py:158-164 | the job block fails with nothing written when Jobs does not take writes, and otherwise creates the job page and returns its id |
| NotionSave.JobPagePropsFacts | app2_notion_uploader_v3.py:158-160 | the job page has the eight fields plus the two relations, to the given role and company, and carries the fingerprint |
| NotionSave.RecordedOfWrites | app2_notion_uploader_v3.py:133-164 | a company write, a role write and the job create together make a recorded save |
| NotionSave.TwoWritesKept | app2_notion_uploader_v3.py:133-155 | a company write followed by a role write related to it keep both writes, in order, and leave Jobs as it was |
| NotionSave.CompanyWriteKept | app2_notion_uploader_v3.py:133-142 | the company write alone stays, and Jobs is as it was |
| NotionSave.SavedNewRecords | app2_notion_uploader_v3.py:132-164 | a non-duplicate save that succeeds has returned an id and recorded the job |
| NotionSave.SaveRecordsJob | app2_notion_uploader_v3.py:120-164 | a save returning an id made exactly three writes, in order: a company, a role template related to it, and the one new job page, related to both, whose id is returned |
| NotionSave.SaveSkipsDuplicate | app2_notion_uploader_v3.py:123-130 | the save returns `None` exactly when Jobs is reachable and holds a page with the fingerprint, and then it writes nothing |
| NotionSave.DuplicateCheck | app2_notion_uploader_v3.py:127-128 | the duplicate check raises exactly when Jobs is down, and otherwise says whether a page has the fingerprint |
| NotionSave.SavedNewNotNone | app2_notion_uploader_v3.py:132-164 | the blocks after the duplicate check never return `None` |
| NotionSave.SavedNewFailure | app2_notion_uploader_v3.py:132-168 | a failure after the duplicate check leaves Jobs as it was and keeps the writes of the blocks that completed: none when the company block raised, the company write when the role block raised, the company and role writes when the job create raised |
| NotionSave.SaveFailureKeepsJobs | app2_notion_uploader_v3.py:166-168 | a save that raises created no job page and left no write but the completed company and role writes |
| NotionSave.RoleFailureKeepsCompany | app2_notion_uploader_v3.py:133-155 | when Companies takes writes and Roles does not, the save raises with the company write kept |
| NotionSave.JobFailureKeepsWrites | app2_notion_uploader_v3.py:133-168 | when everything but the Jobs create goes through, the save raises with the company and role writes kept and no job page |
| NotionSave.UpsertReusesMatch | app2_notion_uploader_v3.py:133-141 | an upsert after a query adds a page only when no page matched |
| NotionSave.UpsertUpdatesMatch | app2_notion_uploader_v3.py:133-141 | in a valid store, an upsert after a query that matched merges the properties into one matching page and changes no other page |
| NotionSave.CompanyRecordReused | app2_notion_uploader_v3.py:133-142 | a company whose name contains `company[:60]` is updated and no page is added; otherwise one page with the company properties is appended |
| NotionSave.CompanyStepUpserts | app2_notion_uploader_v3.py:133-142 | the company block is an upsert on the answer to the `company[:60]` query |
| NotionSave.RoleTemplateReused | app2_notion_uploader_v3.py:145-155 | the same for role templates and `position_title[:60]`, the appended page carrying the company relation |
| NotionSave.RoleStepUpserts | app2_notion_uploader_v3.py:145-155 | the role block is an upsert on the answer to the `position_title[:60]` query |
| NotionSave.CompanyStepSucceeds | app2_notion_uploader_v3.py:133-142 | the company block succeeds exactly when Companies takes writes, the name is a string and the properties build |
| NotionSave.RoleStepSucceeds | app2_notion_uploader_v3.py:145-155 | the role block succeeds exactly when Roles takes writes, the title is a string and the properties build |
| NotionSave.SavedNewSucceeds | app2_notion_uploader_v3.py:132-164 | the blocks after the duplicate check succeed exactly when all three databases take writes and the job is storable |
| NotionSave.SaveSucceedsIff | app2_notion_uploader_v3.py:120-168 | a save succeeds exactly when Jobs is reachable and the job is a duplicate, or Jobs takes writes and the job is storable; otherwise it raises |
| NotionSave.UpsertPreservesValid | app2_notion_uploader_v3.py:135-141 | an upsert keeps page numbers below the next one and distinct |
| NotionSave.SavePreservesValid | app2_notion_uploader_v3.py:120-168 | a save keeps page numbers below the next one and distinct, so page ids stay unique |
| NotionSave.SecondSaveIsDuplicate | app2_notion_uploader_v3.py:123-130 | saving the same text and company again after a save returned an id is a duplicate and writes nothing, whatever the URL and clock |
| NotionSave.Fingerprint | app2_notion_uploader_v3.py:123-124 | the job hash of the save; stated by `FingerprintOfCompany`, `JobPagePropsFacts`, `SaveSkipsDuplicate` and `SecondSaveIsDuplicate` |
| NotionSave.FingerprintOfCompany | app2_notion_uploader_v3.py:123-124 | the hashed company is the string itself, "Unknown Company" when absent, or `str()` of any other value |
| NotionSave.FingerprintFilter | app2_notion_uploader_v3.py:127 | the duplicate query's filter; stated by `DuplicateCheck` and `SaveSkipsDuplicate` |
| NotionSave.Subscript | app2_notion_uploader_v3.py:141 | `v["id"]`; stated where used, by `UpsertOfNone`, `UpsertWrites` and `JobStepWrites` |
| NotionSave.JobPageProps | app2_notion_uploader_v3.py:158-160 | the job properties with both relations; stated by `JobPagePropsFacts` and `JobStepWrites` |
| NotionSave.Storable | app2_notion_uploader_v3.py:132-155 | what a new job needs besides a writable Jobs database; `SavedNewSucceeds` and `SaveSucceedsIff` state that it is exactly what success needs |

## Left out

- The Streamlit interface, status messages and session state (`st.info`, `st.warning`, `st.error`, tabs, buttons) are presentation only.
- Environment variables, credentials, `os.chdir` and client construction are configuration I/O. The store's constructor stands for the configured client.
- Reading and writing `parsed_output.json` is file I/O.
- `app_combined.py` only launches subprocesses and is not part of this model.
- The OpenAI chat call and the prompt and schema strings are left out. Each backend attempt is a reply value given by a parameter, and `json.loads` is a parameter that may fail.
- `markdownify`, `json.dumps`, `str()` of a non-string and SHA-256 are foreign libraries. They are uninterpreted function parameters, so nothing is claimed about their output.
- The Notion REST query and the SDK's create and update are replaced by the in-memory `Store`. Two kinds of failure raise `ApiError`. An unreachable service is a database in the store's `down` set, and every call to it raises. A rejected request is a database in the `rejects` set: its queries still answer, but every create and update raises. A failed HTTP status check of `notion_query` is the first kind. Notion's own matching rules for `contains` and `equals` are modelled as substring and equality on the first text run.
- `datetime.utcnow()` is three readings passed in `Env`: the job date, and the company and role time stamps.
- Concurrency: there is none in the code, so the check-then-create race is not modelled.
- JSON objects are maps, so key order is not modelled. Iterating a dict in a builder (`for kw in a_dict`) would visit its keys in insertion order. The model counts it as a failure instead.
- Python `\w` beyond ASCII letters, digits, `_` and the four non-ASCII letters that `re.IGNORECASE` identifies with ASCII ones is not modelled. `\b` next to other non-ASCII letters is judged as if they were not word characters.
- `str.capitalize` and `str.lower` are modelled only for the characters a match of the work-mode pattern can hold.
- Floating-point values are real numbers, and only their truth value is used.
- MarkdownConverter.CompanyOverviewPreempted: it shows what rule 1 does to one "company overview"; it does not prove that rule 9's "company overview" branch can never match anywhere.
- HeuristicExtractor.SalaryExample: the worked example "$80,000 - $95,000" is stated for the three salary keys (`SalaryFields`), not for the whole dict `heuristic_extract` returns; the other keys come from `LocationKey`, `VisaKey` and `RemoteKey`, which hold for every text.
- HeuristicExtractor.CapitalizedWorkMode: the value is stated for ASCII text only; for other matched characters (such as U+0131 matching `i`) it is the modelled `capitalize` of the matched text.
