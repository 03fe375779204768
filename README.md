# Analyze Tracker core, modelled in Dafny

Analyze Tracker analyzes a block of text. It computes word, character and
sentence counts locally. It then asks a generative model (Gemini) for
sentiment, keywords and a summary, and overlays that reply on the local
result. When any remote step fails, it falls back to the local result.
Results can be appended to a JSON history file.

This project models three parts of the repository:

- the two analyzer variants, `analyzer.py` (nine-field record, model
  `gemini-2.0-flash`, prompt excerpt `text[:4000]`, counts may be overwritten
  by the reply) and `src/analyzer.py` (six-field record, model `gemini-pro`,
  excerpt `text[:2000]`, only `sentiment_score` and `keywords` taken over);
- the list logic of `Database.save_result` in `db.py`.

Modules:

| file | module | what it holds |
|---|---|---|
| `options.dfy` | `Options` | `Option`, for `None`-or-a-value and for steps that raise |
| `pystr.dfy` | `PyStr` | Python `str.isspace`, `strip`, `split()`, `split(sep)`, `replace`, `s[:n]` |
| `json.dfy` | `Json` | decoded JSON values and `dict.get` |
| `metrics.dfy` | `Metrics` | the local word, character and sentence counts shared by both variants |
| `fences.dfy` | `Fences` | `re.sub(r'```json\n|```', '', reply).strip()` |
| `remote.dfy` | `Remote` | the remote step: credential check, model call on the excerpt, fence stripping, decoding |
| `root_analyzer.dfy` | `RootAnalyzer` | `analyzer.py` |
| `src_analyzer.dfy` | `SrcAnalyzer` | `src/analyzer.py` |
| `history.dfy` | `History` | `db.py` |

How the model is shaped:

- `calculate_local_metrics` is a pure function in each variant. `Metrics` defines
  its three counts. The word count is proved to equal the number of maximal
  runs of non-whitespace characters. The sentence count is proved to be at
  most one more than the number of `.`, `!` and `?` characters.
- `analyze_with_gemini` is a method that starts from the local record and
  overwrites its fields one assignment at a time, as the Python code does.
  The Python result object is created fresh on each call and never shared, so
  it is modelled as a datatype value held in the method's out-parameter. Each
  method is proved equal to a function `Analyze`. The merge rules are lemmas
  about `Analyze`.
- Everything outside the repository's own code is a `Backend` value that the
  caller passes in. It holds whether `Config.validate` passes, what the model
  answers for a model name and a text excerpt, and what `json.loads` returns
  for a cleaned reply. A decoded value that is not a JSON object counts as a
  failure, because the first `data.get` raises on it before any field is written.
- In `analyzer.py` the fields the reply can write hold whatever JSON value the
  reply carries, since Python does not check the dataclass annotations. A
  payload can even put a string into `word_count`. These fields are typed as
  JSON values.
- `Database` is a class whose `file` field says what reading the history file
  gives: missing, blank, undecodable, decodable but not a list, or a list of
  records. `SaveResult` modifies it.

Notes on the repository:

- `tests/test_analyzer.py` imports the top-level `analyzer` but asserts
  `sentiment_score == 0.85` (lines 41-47). Only `src/analyzer.py:103` writes
  `sentiment_score`; `analyzer.py:124-127` never does. The test's success
  scenario is therefore stated twice. `SrcAnalyzer.TestSuccessScenario` proves
  the test's expectations for the `src` variant.
  `RootAnalyzer.TestSuccessScenario` proves that the same reply leaves
  `sentiment_score` at `None` in the top-level variant.
- The code does not leave absent keys "at their prior value" on success.
  `sentiment_label`, `sentiment_confidence` and `summary` become `None` when
  absent, and `keywords` becomes `[]`. On a fresh local record the prior
  values are the same, so the outcome agrees. A present key holding JSON
  `null` also writes `None`.
- The insight fields are not populated together on success. Each one is
  `None` when its key is missing from an otherwise valid reply. The model
  follows the code.

## Model

| member | source | states |
|---|---|---|
| `PyStr.AsciiSpace` | analyzer.py:50-51 | among ASCII characters, the whitespace that `split()` and `strip()` act on is exactly space, tab, line feed, vertical tab, form feed, carriage return and the four separators `\x1c`-`\x1f` |
| `PyStr.Strip` | analyzer.py:51 | `strip()` is empty exactly when the string is all whitespace; otherwise the result starts and ends with a non-space |
| `PyStr.StripPadded` | analyzer.py:117 | `strip()` removes exactly the whitespace padding around a core that starts and ends with a non-space |
| `PyStr.WordsCountRuns` | analyzer.py:50 | `len(text.split())` is the number of maximal runs of non-whitespace characters |
| `PyStr.WordsEmptyIff` | analyzer.py:50 | `split()` is empty exactly when the text is empty or all whitespace |
| `PyStr.Words` | analyzer.py:50 | every word `split()` returns is non-empty and holds no whitespace |
| `PyStr.WordsOfJoin` | analyzer.py:50 | `' '.join` of non-empty whitespace-free words is split back into exactly those words |
| `PyStr.WordsCons` | analyzer.py:50 | a word followed by a space and more text splits into that word, then the words of the rest |
| `PyStr.ReplaceChar` | analyzer.py:51 | `replace` keeps the length and changes exactly the occurrences of the old character |
| `PyStr.SplitOn` | analyzer.py:51 | `split(sep)` gives one part more than there are separators, and no part holds the separator |
| `PyStr.JoinSplitOn` | analyzer.py:51 | joining the parts of `split(sep)` with `sep` gives the text back |
| `PyStr.SplitOnJoin` | analyzer.py:51 | splitting `sep.join(parts)` gives the parts back when none holds `sep` |
| `PyStr.Prefix` | analyzer.py:104 | `text[:n]` is the whole text when it is at most `n` long, otherwise its first `n` characters |
| `Metrics.WordCount` | analyzer.py:50-54 | the word count is the number of whitespace-separated runs, and is 0 exactly for empty or all-whitespace text |
| `Metrics.Normalize` | analyzer.py:51 | after the two `replace` calls a character is `.` exactly where the text had a terminator; other characters are unchanged |
| `Metrics.NormalizedDots` | analyzer.py:51 | the normalised text holds exactly as many dots as the text holds `.`, `!` and `?` |
| `Metrics.CharCount` | analyzer.py:55 | the character count is the length of the raw text |
| `Metrics.Fragments` | analyzer.py:51 | the normalised text splits into one fragment more than there are terminators, none holding a dot |
| `Metrics.NonBlank` | analyzer.py:51 | the filter never yields more fragments than it is given |
| `Metrics.NonBlankMultiset` | analyzer.py:51 | the filter keeps each non-blank fragment as often as it occurs and drops every blank one |
| `Metrics.NonBlankEmpty` | analyzer.py:51 | the filter yields nothing exactly when every fragment is blank |
| `Metrics.NonBlankAll` | analyzer.py:51 | the filter keeps every fragment exactly when none is blank |
| `Metrics.Sentences` | analyzer.py:51 | the sentences are the non-blank fragments, each as often as it occurs, and no blank fragment |
| `Metrics.NonBlankMembers` | analyzer.py:51 | the filter keeps exactly the fragments whose stripped form is non-empty |
| `Metrics.SentenceCount` | analyzer.py:51-56 | the sentence count is at most one more than the number of terminators |
| `Metrics.SentenceCountExtremes` | analyzer.py:51-56 | the sentence count is 0 exactly when every fragment is blank, and one more than the number of terminators exactly when no fragment is blank |
| `Metrics.SentencesAreNonBlankFragments` | analyzer.py:51 | a sentence is exactly a fragment of the normalised text that is not all whitespace |
| `Metrics.NoTerminatorOneSentence` | analyzer.py:51 | text without terminators is one sentence, or none when it is blank |
| `Metrics.ThreeSentences` | analyzer.py:51 | three non-blank clauses closed by `!`, `?` and `.` make three sentences |
| `Metrics.ExampleSentences` | analyzer.py:51 | "Hello! How are you? Fine." has three sentences |
| `Metrics.ExampleWords` | tests/test_analyzer.py:41-45 | "I love coding with Python and AI!" has 7 words |
| `Metrics.ExampleTwoWords` | tests/test_analyzer.py:58-62 | "Some text" has 2 words |
| `Fences.RemoveFences` | analyzer.py:117 | the substitution never lengthens the reply |
| `Fences.StripFences` | analyzer.py:117 | the cleaned reply is never longer than the reply, and when non-empty starts and ends with a non-space |
| `Fences.RemoveFencesPlainPrefix` | analyzer.py:117 | a backtick-free prefix passes through the substitution unchanged |
| `Fences.RemoveFencesPlain` | analyzer.py:117 | on backtick-free input the substitution is the identity, so cleaning is a plain `strip()` |
| `Fences.RemoveJsonFence` | analyzer.py:117 | an opening `` ```json `` fence with its newline vanishes |
| `Fences.RemoveBareFence` | analyzer.py:117 | a bare fence not followed by `json` and a newline vanishes |
| `Fences.RemoveFencesOfFencedBlock` | analyzer.py:117 | the substitution takes both fences out of a reply holding one fenced block with backtick-free text around it |
| `Fences.StripFencesOfFencedBlock` | analyzer.py:117 | a reply holding one fenced JSON block is cleaned to the stripped text with both fences removed |
| `Fences.RemoveFencesKeepsNoDoubleStart` | src/analyzer.py:100 | the cleaned text starts with two backticks only if the input did |
| `Fences.RemoveFencesLeavesNoFence` | src/analyzer.py:100 | the cleaned text never holds three consecutive backticks |
| `Json.GetOr` | analyzer.py:127 | `dict.get(key, default)` is the stored value when the key is present and the default otherwise |
| `Json.Get` | analyzer.py:124-126 | `dict.get(key)` is `get(key, None)`, and is not `None` only for a present key |
| `Remote.Enrich` | analyzer.py:75-118 | no credential, a raising call, an undecodable reply or a non-object reply gives failure; with a credential and a reply that cleans and decodes to an object, the result is that object's entries with the call's latency |
| `Remote.EnrichSeesOnlyExcerpt` | analyzer.py:104 | a text longer than the limit has the same remote outcome as its first `limit` characters; a shorter text is sent whole |
| `Remote.EnrichDependsOnlyOnExcerpt` | analyzer.py:104-108 | texts that agree on the excerpt get the same remote outcome |
| `Remote.EnrichOfFencedReply` | analyzer.py:108-118 | a fenced reply decoding to an object yields that object and the call's latency |
| `RootAnalyzer.CalculateLocalMetrics` | analyzer.py:35-64 | the three counts as `Metrics` defines them; every insight field `None`, no keywords, latency 0 |
| `RootAnalyzer.Analyze` | analyzer.py:66-148 | a failed remote step returns exactly the local record; on success the latency is the call's latency; `sentiment_score` is never set |
| `RootAnalyzer.AnalyzeWithGemini` | analyzer.py:66-148 | the field-by-field updates produce exactly `Analyze(text, backend)` |
| `RootAnalyzer.FailureGivesLocalMetrics` | analyzer.py:143-148 | any failure returns exactly the local record |
| `RootAnalyzer.MissingCredentialGivesLocalMetrics` | analyzer.py:75-76 | a failed `Config.validate` returns exactly the local record |
| `RootAnalyzer.SuccessMergesInsight` | analyzer.py:124-137 | on success label, confidence and summary take the payload's value or `None`, keywords its value or `[]`, and latency grows by the call's latency |
| `RootAnalyzer.SuccessCountsOverrideOnlyWhenPresent` | analyzer.py:133-135 | each count is replaced only when its key is present, and otherwise stays as computed locally |
| `RootAnalyzer.LatencyGrowsScoreStaysNone` | analyzer.py:124-137 | latency never decreases, and `sentiment_score` is never written |
| `RootAnalyzer.InsightDependsOnlyOnExcerpt` | analyzer.py:104 | texts agreeing on their first 4000 characters get the same insight fields |
| `RootAnalyzer.TestReply` | tests/test_analyzer.py:27-35 | the test's fenced reply, on any text, leaves the word count local, takes over the keywords and leaves `sentiment_score` at `None` |
| `RootAnalyzer.TestSuccessScenario` | tests/test_analyzer.py:27-47 | the test's fenced reply gives 7 words and its keywords, but `sentiment_score` stays `None` in this variant |
| `SrcAnalyzer.CalculateLocalMetrics` | src/analyzer.py:32-61 | the three counts as `Metrics` defines them; score `None`, no keywords, latency 0 |
| `SrcAnalyzer.Analyze` | src/analyzer.py:63-116 | a failed remote step returns exactly the local record; on success the latency is the call's latency; the three counts are always the local ones |
| `SrcAnalyzer.AnalyzeWithGemini` | src/analyzer.py:63-116 | the in-place updates produce exactly `Analyze(text, backend)` |
| `SrcAnalyzer.FailureGivesLocalMetrics` | src/analyzer.py:111-116 | any failure returns exactly the local record, with `sentiment_score` `None` |
| `SrcAnalyzer.SuccessMergesInsight` | src/analyzer.py:103-105 | on success the score takes the payload's value or `None`, keywords its value or `[]`, and latency grows by the call's latency |
| `SrcAnalyzer.CountsStayLocal` | src/analyzer.py:47-105 | whatever the reply, the counts are the local ones and latency never decreases |
| `SrcAnalyzer.InsightDependsOnlyOnExcerpt` | src/analyzer.py:87 | texts agreeing on their first 2000 characters get the same score, keywords and latency |
| `SrcAnalyzer.TestReply` | tests/test_analyzer.py:27-35 | the test's fenced reply, on any text, leaves the word count local and takes over exactly its score and keywords |
| `SrcAnalyzer.TestSuccessScenario` | tests/test_analyzer.py:27-47 | the test's fenced reply gives 7 words, score 0.85 and exactly its keywords |
| `SrcAnalyzer.TestFailureScenario` | tests/test_analyzer.py:53-63 | a failed call on "Some text" gives 2 words and no score |
| `History.Load` | db.py:44-53 | loading raises exactly for content that is not a list; missing, blank or undecodable content gives an empty list |
| `History.Append` | db.py:56-63 | one record is appended at the end with id one past the old length; earlier records are kept |
| `History.Save` | db.py:44-63 | saving fails exactly when the content is not a list; otherwise the last record is the new one, numbered with the list's new length, a stored list is kept as its prefix, and an unreadable file leaves a single record |
| `History.Database.constructor` | db.py:16-29 | a missing file is created holding an empty list; any other file is left as it is |
| `History.Database.SaveResult` | db.py:31-74 | the file afterwards holds the loaded list plus the new record, and the returned id is its new length; if loading raises, nothing changes |
| `History.SaveAppendsOne` | db.py:57-63 | saving to a list appends exactly one record, id = length + 1, and keeps earlier records |
| `History.SaveResetsUnreadable` | db.py:44-63 | after saving to a missing, blank or corrupt file the store holds exactly one record, with id 1 |
| `History.ContiguousIdsIncrease` | db.py:57 | contiguous ids are strictly increasing |
| `History.SaveAllKeepsContiguous` | db.py:57-63 | successive saves keep earlier records, add one record per save in call order, and keep ids contiguous |
| `History.SavesFromEmpty` | db.py:57-63 | starting from an empty store, N saves give ids 1 to N |
| `History.SaveTwice` | db.py:31-70 | two saves to a fresh store return the next two ids after the loaded list, or nothing when loading raises |

## Left out

- The Gemini SDK (`genai.configure`, `GenerativeModel`, `generate_content`) is foreign network code. It is the `generate` field of `Remote.Backend`: a function from model name and excerpt to a reply or a failure.
- The prompt wording is left out. The model passes only the model name and the excerpt `text[:limit]` to `generate`, since nothing else in the prompt depends on the input.
- `json.loads` is library code. It is the `loads` field of `Remote.Backend`.
- `Config.validate` and `config.py` read the environment. They are the `credentialPresent` field of `Remote.Backend`.
- Timing uses floating-point clock readings. A latency is a `real` carried by the reply, assumed non-negative; `time.time()` can step back, and a negative latency is not modelled. The local elapsed time is only logged, so it is not modelled.
- RootAnalyzer.LatencyGrowsScoreStaysNone: the latency never decreasing rests on the assumption that the wall-clock latency of the call (analyzer.py:109) is non-negative.
- SrcAnalyzer.CountsStayLocal: the latency never decreasing rests on the assumption that the wall-clock latency of the call (src/analyzer.py:92) is non-negative.
- Sentiment scores and confidences are floats inside the reply. They are opaque JSON values here.
- Logging (`cleanliness.py` and every `logger` call) is left out.
- `main.py` (the command-line interface, file reading, console output, score thresholds) is not part of this model.
- History file I/O (`os.path.exists`, `open`, `json.dump`), `datetime.now().isoformat()` and `asdict` are left out. The file is the abstract `History.FileState`; the timestamp is a parameter; the stored metrics are the `RootAnalyzer.AnalyzeResult` value itself.
- History: I/O errors while reading or writing the file are left out. Only a decoded value that is not a list makes `History.Database.SaveResult` fail.
- History: entries of a stored list that are not records are not modelled. The new id depends only on the list's length.
- `SrcAnalyzer.TestSuccessScenario` and `RootAnalyzer.TestSuccessScenario` take the test's reply as a fenced block with whitespace around it and the decoder's result as a parameter. They leave the keyword list as a parameter rather than the literal `["python", "testing", "ai"]`.
- `Metrics.ExampleWords` states the test sentence as its seven words joined by single spaces, rather than as a string literal.
