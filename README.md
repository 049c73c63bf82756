# Google Business Profile analysis core, in Dafny

The bot collects a business's Google Business Profile data, scores it, and asks
a language model for a report. This project models the deterministic parts
around the network calls, and proves what they do:

- **The profile completeness scorer** (`GMBClient.get_business_profile_analysis`).
  It walks a fixed rubric of eight weighted fields. For each field it records a
  strength, an issue, or, for a short description, nothing. The result is the
  capped score, the issue list, the strength list and a separate issue counter.
  The model is an imperative method, `ProfileScorer.AnalyzeProfile`. It is
  proved equal to the function `ProfileScorer.ProfileAnalysis`, which
  defines `get_business_profile_analysis` entry by entry; the rubric's
  properties are lemmas about that function.
- **The metrics normaliser**. This is the response-folding half of
  `GMBClient.get_performance_metrics`. Six counters start at 0 and the
  `reportInsights` insights are folded into them. The enclosing `except`
  returns an empty dict once anything raises. The model is the method
  `MetricsNormalizer.NormalizeMetrics`, proved equal to the function
  `MetricsNormalizer.Normalized`, which the lemmas are about.
- **The prompt compiler** (`ClaudeAnalyzer._build_prompt`). It assembles the
  prompt from f-strings:
  - `'N/A'` placeholders;
  - the description, cut to 200 characters and always followed by `...`;
  - the first address line;
  - the photo count;
  - six counters with comma thousands separators.

  It is modelled as pure functions in `PromptCompiler`; `_build_prompt` itself
  is `PromptCompiler.BuildPrompt`.
- **The analyzer wrapper** (`ClaudeAnalyzer.analyze_gmb` and `_parse_analysis`).
  They are `ClaudeAnalyzer.AnalyzeGmb` and `ClaudeAnalyzer.ParseAnalysis`.
  The language-model service is a function parameter from request to reply.
  Its exception handling becomes error text; the analyzer's own exceptions are
  told apart by class only.

Python values are a small JSON datatype (`PyValues.Json`):
- A dict is a list of members in insertion order, because `repr` prints that
  order. Lookups take the first member with a key.
- Every Python exception the core can raise is a `PyValues.PyError` returned in
  a `Result`.
- `str`, `repr`, `len`, truthiness and `int()` are written out for these values
  (`PyValues`).
- `int()` of text uses Python's literal grammar: surrounding whitespace (the
  ASCII separators U+001C to U+001F are not stripped), a sign, digits with single underscores (`PyNumbers.ParseIntLiteral`). A literal
  of more than 4300 digits is refused, CPython's default
  `sys.get_int_max_str_digits()`.
- `format(i, ',')` is `PyNumbers.FormatThousands`.

The model follows the code where its behaviour is easy to misread:
- When `int()` fails on an insight's value, the code returns `{}`. It does not
  default the value to 0.
- `int("-5")` is accepted, so counters can be negative.
- The rubric's weights add up to 90, so the score never reaches the cap of 100.

## Model

| member | source | states |
|---|---|---|
| ProfileScorer.AnalyzeProfile | gmb_client.py:167-210 | The rubric loop returns exactly `ProfileAnalysis`, the analysis defined entry by entry by `Judge`. Its issue counter equals the length of the issue list. The score lies between 0 and 90. |
| ProfileScorer.RubricWeighsNinety | gmb_client.py:178-187 | The eight rubric weights add up to 90. |
| ProfileScorer.JudgeCases | gmb_client.py:190-205 | An entry raises only for a truthy description without a length. It is silent exactly for a described-but-short description. It grants points exactly when `Grants` holds, and then grants the entry's weight. |
| ProfileScorer.JudgementsShape | gmb_client.py:189-205 | One verdict is recorded per rubric entry, in rubric order. The points equal the weight granted, which is at most the total weight. The issue counter equals the number of issues. Strengths, issues and silent entries together number the entries. |
| ProfileScorer.JudgementsSucceed | gmb_client.py:189-205 | The loop completes when no entry raises. |
| ProfileScorer.JudgementsFailurePersists | gmb_client.py:189-205 | An exception in an earlier entry ends the whole loop: the result is that exception. |
| ProfileScorer.FailureIsTypeError | gmb_client.py:191 | The only exception the rubric loop raises is a TypeError. |
| ProfileScorer.AnalysisFailsIff | gmb_client.py:190-191 | The scorer raises exactly when the description is truthy and has no `len()`, and the exception is a TypeError. |
| ProfileScorer.ScoreIsGrantedWeight | gmb_client.py:192-207 | The score is min(sum of granted weights, 100), and equals that sum, which is at most 90. |
| ProfileScorer.AnalysisCounts | gmb_client.py:189-208 | The issue counter equals the number of issues. Strengths plus issues are 7 when the description is short, 8 otherwise. |
| ProfileScorer.VerdictRecorded | gmb_client.py:193-204 | Each entry's strength message appears in `strengths`, and each issue message in `issues`. |
| ProfileScorer.EmptyProfile | gmb_client.py:189-207 | With every rubric field absent or falsy: score 0, no strengths, 8 issues counted, and issue k is the "Falta completar" message of rubric entry k. |
| ProfileScorer.CompleteProfile | gmb_client.py:189-207 | With every entry granting its weight: score 90, no issues, counter 0, eight strengths. |
| ProfileScorer.GrantedAll | gmb_client.py:192-198 | When every entry grants, the granted weight is the total weight. |
| ProfileScorer.DescriptionRule | gmb_client.py:191-193 | A description longer than 100 grants and adds the "Completa y detallada" strength. One of length at most 100 grants nothing, adds no message, and leaves 7 messages in total. |
| ProfileScorer.PhotosRule | gmb_client.py:194-202 | A photo list of at least five grants and adds the "Hay suficientes fotos" strength. Any other truthy photos value grants nothing and adds the "agregar más fotos" issue. |
| ProfileScorer.PlainFieldRule | gmb_client.py:189-205 | For the six plain fields, being filled alone grants the weight and a "Completado" strength. Absent or falsy adds "Falta completar". |
| ProfileScorer.MissingFieldRule | gmb_client.py:203-205 | Any rubric field absent or falsy, the description and the photos included, grants nothing and adds its "Falta completar" issue. |
| ProfileScorer.StrengthsContain | gmb_client.py:193 | A strength verdict's message is in the strength list. |
| ProfileScorer.IssuesContain | gmb_client.py:201-204 | An issue verdict's message is in the issue list. |
| ProfileScorer.AllIssues | gmb_client.py:203-205 | A run of issue verdicts gives no strengths and no points, and the issue list holds their messages in order. |
| ProfileScorer.AllStrengths | gmb_client.py:192-199 | A run of strength verdicts gives no issues and one strength each. |
| ProfileScorer.RubricFields | gmb_client.py:178-187 | The rubric has eight entries; the description is the third only; photos are the last. |
| MetricsNormalizer.NormalizeMetrics | gmb_client.py:124-155 | The loop returns exactly `Normalized`, the fold of the insights defined by `FoldInsights`, including the empty dict once anything raised. |
| MetricsNormalizer.FoldSucceedsIff | gmb_client.py:133-155 | The fold succeeds exactly when every insight reads cleanly. Then it holds all six counters. |
| MetricsNormalizer.FoldFailurePersists | gmb_client.py:133-155 | An insight that raises makes the whole fold raise. |
| MetricsNormalizer.LastWriteWins | gmb_client.py:134-149 | Each counter holds the value of the last insight that feeds it, and 0 when none does. Unrecognised metrics change nothing. |
| MetricsNormalizer.NormalizedShape | gmb_client.py:124-155 | The result is either the empty dict or holds exactly the six counters. It is non-empty exactly when the response can be read. |
| MetricsNormalizer.NoInsightsGivesZeros | gmb_client.py:124-151 | Without an `insights` key, all six counters are 0. |
| MetricsNormalizer.MissingValueReadsAsZero | gmb_client.py:135-136 | Any insight dict with a `metric` and no `value`, whatever its other keys, reads as 0 for that metric. |
| MetricsNormalizer.BadValueEmptiesRecord | gmb_client.py:135-155 | One insight that raises (not a dict, no `metric`, `int()` refusing its value) makes the result the empty dict. It is not a zeroed record. |
| MetricsNormalizer.LongValueEmptiesRecord | gmb_client.py:135-155 | A value text of more than 4300 digits is refused by `int()`, so the result is the empty dict. |
| MetricsNormalizer.SeparatorValueEmptiesRecord | gmb_client.py:135-155 | A value text starting with U+001C is refused by `int()`, so the result is the empty dict. |
| MetricsNormalizer.UnrecognisedOnlyGivesZeros | gmb_client.py:138-149 | Insights whose metric names are all unrecognised leave the zeroed record. |
| MetricsNormalizer.KeyInjective | gmb_client.py:124-131 | The six counters have distinct dict keys. |
| MetricsNormalizer.AsDictLookup | gmb_client.py:124-131 | Looking a counter's key up in the returned dict gives its value, or nothing when it is absent. |
| PyNumbers.GroupedWithoutCommas | claude_analyzer.py:86-91 | Removing the separators from a grouped natural number gives its plain digits. |
| PyNumbers.GroupedCommaPositions | claude_analyzer.py:86-91 | In `format(n, ',')` the commas stand exactly every fourth place from the right, and every other character is a digit. |
| PyNumbers.ThousandsWithoutCommas | claude_analyzer.py:86-91 | Removing the commas from `format(i, ',')` gives `str(i)`, for negative numbers too. |
| PyNumbers.ParseDecimal | gmb_client.py:136 | `int(str(i)) == i` for an int of at most 4300 digits. A longer one is a ValueError. |
| PyNumbers.ParseThousands | claude_analyzer.py:86-91 | `int()` reads back a formatted counter of at most 4300 digits once its commas are removed, and refuses a longer one. |
| PyNumbers.SeparatorNotStripped | gmb_client.py:136 | `int()` refuses `"\x1c5"`: the separator U+001C is not stripped. |
| PyNumbers.SpacesStripped | gmb_client.py:136 | `int()` strips the ASCII whitespace of `" 5\n"` and reads 5. |
| PyNumbers.DigitsShape | claude_analyzer.py:80 | `str(n)` of a natural number is a non-empty run of digits, starting with 0 only for 0. |
| PyNumbers.DigitsValueOfDigits | gmb_client.py:136 | The value of `str(n)`'s digits is n. |
| PyValues.GetFinds | gmb_client.py:133-136 | A dict lookup finds the first member with the key, and nothing exactly when no member has it. |
| PyValues.SizedTruthy | gmb_client.py:190 | A value with a length is truthy exactly when the length is non-zero. |
| PyValues.StrScalars | claude_analyzer.py:73-79 | `str` writes `None`, `True`/`False`, and an int as its decimal digits, which `int()` reads back within 4300 digits. |
| PyValues.IntCoerceNumberOrText | gmb_client.py:136 | `int()` gives back an int sent as a number. Sent as its decimal text, it gives it back up to 4300 digits and raises ValueError beyond. |
| PromptCompiler.Prefix | claude_analyzer.py:77 | `s[:n]` has length min(n, len(s)) and is the start of s. |
| PromptCompiler.FieldPlaceholder | claude_analyzer.py:73-79 | An absent plain field shows as `N/A`, a str field as itself, and an int field as its decimal digits. |
| PromptCompiler.DescriptionTruncated | claude_analyzer.py:77 | The description line is its first min(200, len) characters followed by `...`, which is appended even when nothing was cut. |
| PromptCompiler.DescriptionAbsent | claude_analyzer.py:77 | An absent description shows as `N/A...`. |
| PromptCompiler.AddressLine | claude_analyzer.py:78 | The address shows `N/A` when it is absent or falsy, or when it is a dict without `addressLines`. |
| PromptCompiler.AddressFirstLine | claude_analyzer.py:78 | A truthy address dict with a non-empty `addressLines` list shows its first line. |
| PromptCompiler.AddressFailsIff | claude_analyzer.py:78 | The address raises exactly when it is truthy and either not a dict or its `addressLines` is not a non-empty list or str. |
| PromptCompiler.PhotoCountShown | claude_analyzer.py:80 | The photo count is the length of the list, 0 when absent. It raises exactly for a value without a length. |
| PromptCompiler.CounterAbsent | claude_analyzer.py:86-91 | An absent counter shows as `0`. |
| PromptCompiler.CounterShown | claude_analyzer.py:86-91 | An int counter shows with thousands separators. Removing them gives its decimal text, which `int()` reads back up to 4300 digits. |
| PromptCompiler.CounterGrouping | claude_analyzer.py:86-91 | A non-negative counter's text has commas exactly every fourth place from the right. |
| PromptCompiler.MetricRowsFailIff | claude_analyzer.py:84-92 | The metrics block raises exactly when one of its counters does. Otherwise row k is the k-th counter's label with its text. |
| PromptCompiler.RenderSplit | claude_analyzer.py:71-92 | A block's text is its rows' lines in order. |
| PromptCompiler.PromptLayout | claude_analyzer.py:94-108 | A built prompt is the fixed instruction header, then the profile block, then the metrics block, then the fixed closing text. The prompt starts with the header and ends with the closing text. Each block starts with its own heading. |
| PromptCompiler.ProfileRowShown | claude_analyzer.py:71-103 | Every profile row's line occurs in the prompt. |
| PromptCompiler.MetricRowShown | claude_analyzer.py:84-105 | Every counter's line, with its formatted value, occurs in the prompt. |
| PromptCompiler.PlaceholderRow | claude_analyzer.py:73-79 | An absent plain field or address gives its row the text `N/A`. |
| PromptCompiler.DescriptionPlaceholderRow | claude_analyzer.py:77 | An absent description gives the row `Descripción: N/A...`. |
| PromptCompiler.PhotosPlaceholderRow | claude_analyzer.py:80 | Absent photos give the row `Fotos: 0 fotos subidas`, the photo suffix after the digit 0. |
| PromptCompiler.MissingFieldInPrompt | claude_analyzer.py:73-79 | An absent plain field or address stands in the prompt as the line `- <caption>: N/A`. |
| PromptCompiler.PhotosInPrompt | claude_analyzer.py:80 | The prompt holds the line `- Fotos: <n> fotos subidas`, n being the length of the photo list, or 0 without photos. |
| PromptCompiler.MissingCounterInPrompt | claude_analyzer.py:86-91 | Any absent counter stands in the prompt as `- <label>: 0`. |
| PromptCompiler.BuildPromptFailsIff | claude_analyzer.py:71-110 | The prompt cannot be built exactly when the description, the address, the photo count or a counter raises. The description's exception comes first. |
| PromptCompiler.NormalizedMetricsRender | gmb_client.py:151-155 | The normaliser's output always renders. Each counter shows its value with separators, or 0 after the empty dict. |
| ClaudeAnalyzer.ParseAnalysis | claude_analyzer.py:124-126 | The parsed response holds the text under `analysis` and no other key. |
| ClaudeAnalyzer.ParsedAnalysisLookup | claude_analyzer.py:124-126 | A lookup in the parsed response succeeds exactly for `analysis`, and the dict has one member. |
| ClaudeAnalyzer.AnswerIsFirstTextBlock | claude_analyzer.py:34-52 | With a built prompt, the service gets one user message holding the prompt, and the first text block of its reply is the result. |
| ClaudeAnalyzer.PromptFailureSkipsService | claude_analyzer.py:38-56 | A prompt that raises is reported as error text, whatever the service would answer. |
| ClaudeAnalyzer.ServiceFailureReported | claude_analyzer.py:42-56 | A service exception, an empty reply, or a non-text first block comes back as error text. |
| ClaudeAnalyzer.MissingSectionsStillPrompt | claude_analyzer.py:35-39 | Data without profile or performance still yields the prompt for two empty dicts. |
| ClaudeAnalyzer.EmptySectionsBuild | claude_analyzer.py:71-108 | Two empty dicts always give a prompt. |
| ClaudeAnalyzer.ProfileNotADict | claude_analyzer.py:35-73 | A profile that is not a dict raises AttributeError. |
| ClaudeAnalyzer.PromptFromSections | claude_analyzer.py:35-86 | With dict sections the prompt is `_build_prompt`'s. A performance value that is not a dict raises only after the profile lines are done. |

## Left out

- The Google API client: construction, `get_business_data`, and the request half of `get_performance_metrics` (gmb_client.py:13-121). These are network calls. The 30-day window reads the clock, and the response arrives as a parameter.
- The Anthropic client (claude_analyzer.py:12-20, 42-50). The service is a function parameter from the request to the reply. `describe` stands for `str(e)` of the analyzer's own exceptions.
- Logging calls (gmb_client.py:154, claude_analyzer.py:55). They have no effect on results.
- `setup.py`, `test_setup.py` and `main.py`. These are interactive setup, environment checks and the Telegram bot loop, not analysis logic.
- Floating-point JSON numbers. Decoded numbers are modelled as ints.
- `int()` on text accepts only ASCII digits, not other Unicode decimal digits.
- `repr` escapes only ASCII control characters. Python's escapes of non-printable non-ASCII characters (`\x` for U+0080 to U+00A0 and U+00AD, `\u`, `\U`) are not modelled.
- PromptCompiler.DescriptionText: slicing a dict description raises TypeError before Python 3.12 and KeyError from 3.12 on. The model takes TypeError.
- PyNumbers.FormatThousands: `str(i)` and `format(i, ',')` also raise ValueError past 4300 digits; the model writes out every int. Every int the core formats comes from decoded JSON or from `int()`, both held to that limit, or is a `len()`.
- ClaudeAnalyzer.AnalyzeGmb: the analyzer's own exceptions are reported through `describe`, which sees only the exception class. Python's message also names the offending type or value (`'str' object has no attribute 'get'` against `'list' object …`), and the model does not tell those apart.
- Lone surrogates in text. A Dafny `char` is a Unicode scalar value, so a Python str holding one (JSON `"\ud800"`) cannot be represented; its `len`, slicing and `repr` are not modelled.
- Dict keys other than strings. JSON objects cannot produce them.
