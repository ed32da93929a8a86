# Protocol extractor and lab assistant — a Dafny model

This project models the core of a tool that turns the methods sections of open-access
scientific articles into standardised laboratory protocols, and of the gamified assistant
built on top of it.

From `protocolo_extractor.py` it models:

- **CacheManager**: a key/value store with a seven-day expiry, keyed by a digest of a semantic
  string such as `search_<query>_<n>`, `article_<pmcid>` or `protocol_<first 100 chars>_<style>`.
- **PubMedClient**: the cache in front of the esearch and efetch requests, and the extraction of
  an `Article` record from the article's XML tree.
  - `_extract_methods` is a two-stage heuristic. Stage 1 looks for the first `sec` element with a
    methods-like title. Stage 2 falls back to a regular expression over the body text.
- **LLMProcessor.generate_protocol**: the empty-input guard, the cache key, the prompt, the
  request sent to the chat model, and the defaulting of missing fields in its JSON answer.

From `protocolo_lab_assistant.py` it models:

- the achievements table;
- the user profile with its achievement list and point total;
- `check_achievements`, `_calculate_next_level` and `_format_recent_searches`.

Modules:

| module | contents |
|---|---|
| Wrappers | Option and Result types, and the exceptions the pipeline raises |
| Json | decoded JSON values, Python truthiness, `dict.get`, list and optional-string encodings |
| Text | `str.strip` (by `str.isspace`), lower-casing, substring search, `str.join`, `str(int)` |
| Xml | the ElementTree view of a document: `iter`, `itertext`, `find`, `findall` |
| Cache | `CacheManager` as a class over a map from keys to timestamped entries |
| Extraction | `_extract_methods`, including the regular expression of stage 2 |
| Articles | `Article`, `_get_text`, `_parse_article_xml`, `_extract_abstract`, and `PubMedClient` |
| Synthesis | `Protocol`, `_build_prompt`, and `LLMProcessor` |
| LabAssistant | `ACHIEVEMENTS`, the level ladder, and `UserProfile` with the three methods |

Time is an integer count of microseconds, the resolution of `datetime.isoformat()`.
`timedelta.days` rounds down, and Dafny's `/` by a positive constant does too, so
`(now - t) / MICROS_PER_DAY` is the whole-day age even when the clock went backwards.

Nothing talks to the network. Each method that may send a request takes the reply it would
get as a parameter: a `Result`, whose `Failure` stands for the transport, HTTP, XML or API
error. A ghost log (`searches`, `fetches`, `requests`) records every request actually sent, so
"served from the cache, nothing sent" is a stated and proved property.

Stage 1 of `_extract_methods` walks `sec.iter()`. That iteration includes the section element
itself and its `title`, so the returned text starts with the title words. Each element adds its
stripped text and then its stripped tail, before its children. The model keeps that order.

For the regular expression `P[:\s]+(.*?)(?:Results|Discussion|Conclusion)`, backtracking into
the separator run never helps: no terminating word starts with `:` or whitespace. So a match
starts at `i` exactly when three things hold:

- the pattern occurs at `i`, ignoring case;
- a separator follows it;
- a terminating word starts at or after the end of the longest separator run.

The group is the text from the end of that run up to the first such word. `re.search` returns
the leftmost such start.

## Model

| member | source | states |
|---|---|---|
| Json.StringsRoundTrip | protocolo_extractor.py:166-187 | a list of strings written to the cache reads back as the same list |
| Json.OptStringRoundTrip | protocolo_extractor.py:166-187 | an optional string (None as null) written to the cache reads back unchanged |
| Text.LStripSpec | protocolo_extractor.py:243 | left strip drops a prefix made only of whitespace and keeps a suffix that starts with a non-space (or is empty) |
| Text.RStripSpec | protocolo_extractor.py:243 | right strip drops a suffix made only of whitespace and keeps a prefix that ends with a non-space (or is empty) |
| Text.StripIsTrimmed | protocolo_extractor.py:243 | a stripped string has no whitespace at either end, and it is empty exactly when the input was all whitespace |
| Text.StripStripped | protocolo_extractor.py:205 | stripping a string with no surrounding whitespace changes nothing |
| Text.LowerHasNoCapital | protocolo_extractor.py:268 | a lower-cased title holds no ASCII capital letter |
| Text.LowerIdempotent | protocolo_extractor.py:268 | lower-casing an already lower-cased title changes nothing |
| Text.LowerOfLowerCase | protocolo_extractor.py:268 | a text without ASCII capitals, such as each keyword the title is tested against, is its own lower-case form |
| Text.ContainsFrom | protocolo_extractor.py:269 | the substring test is true exactly when the phrase occurs at some position |
| Text.NatToStringRoundTrip | protocolo_extractor.py:133 | `str(n)` of a natural number reads back as n |
| Text.IntToStringInjective | protocolo_extractor.py:133 | different integers have different decimal forms |
| Xml.Iter | protocolo_extractor.py:272 | `iter()` starts with the element itself |
| Xml.FilterAppend | protocolo_extractor.py:265 | selecting by tag distributes over concatenation, so `iter(tag)` and `findall` keep document order |
| Xml.FirstIndex | protocolo_extractor.py:241 | `find` returns the first node in document order that the path selects, and none when no node is selected |
| Xml.FindNested | protocolo_extractor.py:209 | `.//pub-date/year` yields the first `year` child of the first `pub-date` descendant, in document order, that has one; no earlier `pub-date` has a `year` child; nothing is found exactly when none has one |
| Xml.FirstChildOfAny | protocolo_extractor.py:209 | the node found is the first `inner` child of the first node of the list that has one, every earlier node has none, and nothing is found exactly when no node has one |
| Xml.Itertext | protocolo_extractor.py:243 | `itertext()` yields only non-empty pieces |
| Cache.FreshIff | protocolo_extractor.py:100 | a whole-day age below 7 is the same as an age below 7 × 86400 seconds |
| Cache.LookupIff | protocolo_extractor.py:92-103 | `get` returns content exactly when an entry exists and is younger than seven days, and then it returns the stored content |
| Cache.PutThenGet | protocolo_extractor.py:105-112 | after `set(k, c)`, a `get(k)` less than seven days later returns c |
| Cache.ExpiredIsAbsent | protocolo_extractor.py:100-103 | seven days after it was written, an entry is no longer returned |
| Cache.PutLeavesOthers | protocolo_extractor.py:105-112 | `set(k, c)` does not change what `get` returns for any other key |
| Cache.CacheManager.Get | protocolo_extractor.py:92-103 | the result is present exactly when the entry exists and is fresh, and it is the stored content; nothing is modified, so an expired entry is not deleted |
| Cache.CacheManager.Set | protocolo_extractor.py:105-112 | the store afterwards is the old one with only key k overwritten by (now, content) |
| Extraction.FirstMethodsSection | protocolo_extractor.py:265-269 | the index returned is the first `sec` in document order whose title matches; no earlier `sec` matches, and None means that none matches |
| Extraction.SearchSections | protocolo_extractor.py:265-277 | the section loop returns the stage-1 text of the first matching section, or None |
| Extraction.CollectSectionText | protocolo_extractor.py:271-277 | the collected text is the space-join of the stripped text and tail of every element of `sec.iter()`, the section and its title included |
| Extraction.AddPieces | protocolo_extractor.py:273-276 | one element adds its stripped text, then its stripped tail, each only when non-empty |
| Extraction.PiecesAppend | protocolo_extractor.py:272-276 | the pieces of two node lists are the pieces of the first followed by those of the second |
| Extraction.SkipSeparatorsSpec | protocolo_extractor.py:285 | the greedy `[:\s]+` consumes only separators and stops before a non-separator or at the end |
| Extraction.NextTerminatorSpec | protocolo_extractor.py:285 | the lazy group stops at the first position where Results, Discussion or Conclusion starts (ignoring case), and none is found when no such word follows |
| Extraction.LeftmostMatch | protocolo_extractor.py:285-286 | `re.search` finds the leftmost start at which the expression matches, and reports no match when none exists |
| Extraction.CaptureHasNoTerminator | protocolo_extractor.py:285-288 | the captured group contains no terminating word |
| Extraction.CaptureFollowsSeparators | protocolo_extractor.py:285-288 | the group starts after at least one separator, with only separators between the pattern and the group |
| Extraction.SearchBody | protocolo_extractor.py:280-288 | the pattern loop returns the stripped group of the first pattern that matches the body text, or None |
| Extraction.ExtractMethods | protocolo_extractor.py:253-290 | `_extract_methods` returns the stage-1 text when a section matched, and otherwise the stage-2 result |
| Extraction.StageOneWins | protocolo_extractor.py:265-277 | first match wins: the first section with a methods title determines the result, whatever the body says |
| Extraction.LaterSectionsIgnored | protocolo_extractor.py:265-277 | two documents that agree up to the first matching section give the same result, whatever follows it |
| Extraction.StageTwoOnlyWithoutTitledSection | protocolo_extractor.py:279-290 | stage 2 decides the result exactly when no section title matched; otherwise the result is a section's text |
| Extraction.FallbackPatternOrder | protocolo_extractor.py:284-288 | when the earlier patterns do not match and pattern k does, the result is pattern k's stripped group |
| Extraction.FirstPatternSkips | protocolo_extractor.py:284-288 | patterns that did not match are passed over |
| Extraction.NoMethodsIff | protocolo_extractor.py:253-290 | the result is None exactly when no section title matches and the body is missing or matches none of the three patterns |
| Extraction.MethodsTitleIff | protocolo_extractor.py:258-269 | a title matches one of the eight phrases exactly when it contains "methods", "methodology" or "experimental" |
| Extraction.KeywordPositions | protocolo_extractor.py:258-262 | where a keyword sits inside each longer title phrase |
| Articles.GetText | protocolo_extractor.py:239-244 | `_get_text` returns the default when the path finds nothing, and otherwise a stripped string |
| Articles.AuthorName | protocolo_extractor.py:202-205 | a contributor gives a name exactly when its surname is non-empty, and that name is non-empty and stripped |
| Articles.StripKeepsLastWord | protocolo_extractor.py:205 | `f"{given} {surname}".strip()` ends with the surname |
| Articles.PresentIff | protocolo_extractor.py:200-205 | a name is collected exactly when some contributor gave it |
| Articles.AuthorsIff | protocolo_extractor.py:200-205 | a string is in the author list exactly when some `contrib-type='author'` contributor yields it |
| Articles.AuthorsAreNames | protocolo_extractor.py:200-205 | every listed author is non-empty and stripped |
| Articles.AuthorsSnoc | protocolo_extractor.py:200-205 | one more contributor appends its name (if it gives one) to the author list |
| Articles.CollectAuthors | protocolo_extractor.py:200-205 | the author loop produces exactly the names of the contributors with a surname, in document order |
| Articles.AddAuthor | protocolo_extractor.py:202-205 | one step of the author loop appends "given surname", stripped, when there is a surname, and nothing otherwise |
| Articles.ExtractAbstract | protocolo_extractor.py:246-251 | the abstract is present exactly when an `abstract` element exists, and it is stripped |
| Articles.ArticleDefaults | protocolo_extractor.py:197-218 | a missing title, journal or year takes "Sin título", "Journal desconocido" or the current year; a missing DOI or PMID is None; the abstract is None exactly when there is none |
| Articles.ArticleUrlInjective | protocolo_extractor.py:224 | different PMC ids give different article URLs |
| Articles.ParseArticleXml | protocolo_extractor.py:193-237 | the parser builds exactly the article record defined field by field from the document |
| Articles.EncodeArticle | protocolo_extractor.py:186 | `asdict(article)` has exactly the ten field names as keys |
| Articles.DecodeArticle | protocolo_extractor.py:169 | `Article(**cached)` succeeds only on an object with exactly the ten field names |
| Articles.ArticleRoundTrip | protocolo_extractor.py:166-187 | an article written to the cache reads back as the same article |
| Articles.FromCache | protocolo_extractor.py:168-169 | a cache hit gives the rebuilt article, or the error for a malformed record |
| Articles.PyContains | protocolo_extractor.py:152 | Python's `in` raises exactly on None, a bool or a number, and is the key test on a dict |
| Articles.IdList | protocolo_extractor.py:152-153 | an id list is found exactly when the reply is a dict whose `esearchresult` is a dict holding `idlist`, and then it is the value under `idlist` |
| Articles.IdListOutcomes | protocolo_extractor.py:152-156 | the outcome on every reply shape: a dict without `esearchresult`, or a list or string not holding the key, gives no ids; None, a bool, a number, or a list or string that does hold the key raises TypeError; the same at the `idlist` level |
| Articles.SearchKeyTextInjective | protocolo_extractor.py:133 | two searches share a key text only with the same query and the same size |
| Articles.SearchAndArticleKeysDiffer | protocolo_extractor.py:166 | an article's key text never equals a search's |
| Articles.PubMedClient.SearchArticles | protocolo_extractor.py:128-160 | a truthy cached list is returned with nothing sent; an empty cached list counts as a miss; on a miss exactly one request is sent; an `idlist` found by the two `in` tests is cached and returned; a reply whose tests are false returns [] and caches nothing; the TypeError of a reply of the wrong shape and a transport failure are raised, with nothing cached |
| Articles.PubMedClient.FetchArticle | protocolo_extractor.py:162-191 | a truthy cached record is rebuilt with nothing sent; otherwise one request is sent and the parsed article is returned and cached under its key; a failure is re-raised and nothing is cached |
| Articles.PubMedClient.ParseAndStore | protocolo_extractor.py:182-187 | the parsed article is returned and cached as `asdict(article)`, and only that key changes |
| Articles.RepeatedSearchIsCached | protocolo_extractor.py:133-155 | a search that found a non-empty id list, repeated within seven days, returns the same ids and sends no second request |
| Articles.CachedArticleReadsBack | protocolo_extractor.py:166-187 | a fetched article, looked up within seven days, is a truthy record that rebuilds the same article |
| Synthesis.UnknownStyleIsDetailed | protocolo_extractor.py:399-408 | an unknown style gets the "detailed" instruction |
| Synthesis.PromptEmbedsMethods | protocolo_extractor.py:404-423 | the prompt contains the whole methods text, unchanged, at a fixed offset after the preamble for the style |
| Synthesis.BuildPromptInjective | protocolo_extractor.py:404-423 | for one style, different methods texts give different prompts |
| Synthesis.KeyPrefix | protocolo_extractor.py:315 | `methods_text[:100]` is the longest prefix of at most 100 characters |
| Synthesis.ProtocolKeySharedPrefix | protocolo_extractor.py:315 | texts that agree on their first hundred characters share the protocol key for a style |
| Synthesis.ProtocolKeyTextLong | protocolo_extractor.py:315 | for texts of at least 100 characters, equal key texts mean the same style and the same first hundred characters |
| Synthesis.ProtocolKeyTextInjective | protocolo_extractor.py:315 | for styles without an underscore, and methods texts of any length, equal key texts mean the same style and the same `methods_text[:100]` |
| Synthesis.ProtocolKeysOfStylesDiffer | protocolo_extractor.py:315 | two different styles among "detailed", "concise" and "educational" never share a key text, whatever the methods texts |
| Synthesis.ProtocolKeysDiffer | protocolo_extractor.py:315 | a protocol key text never equals a search or article key text |
| Synthesis.ProtocolFromJsonFields | protocolo_extractor.py:347-359 | for each of the nine answer keys, a key present in the answer is used as is (even a null); a missing one takes its default ("Protocolo sin título" for the title, {} for the conditions, [] for the rest); the article, date and model never come from the answer |
| Synthesis.EmptyAnswerIsAllDefaults | protocolo_extractor.py:347-359 | an empty answer object gives the protocol made only of defaults |
| Synthesis.EncodeProtocol | protocolo_extractor.py:362 | `asdict(protocol)` has exactly the eleven field names as keys |
| Synthesis.DecodeProtocol | protocolo_extractor.py:318 | `Protocol(**cached)` succeeds only on an object with exactly the eleven field names |
| Synthesis.ProtocolRoundTrip | protocolo_extractor.py:315-362 | a protocol written to the cache reads back as the same protocol |
| Synthesis.ProtocolFromCache | protocolo_extractor.py:317-318 | a cache hit gives the rebuilt protocol, or the error for a malformed record |
| Synthesis.CachedProtocolReadsBack | protocolo_extractor.py:315-362 | a generated protocol, looked up within seven days, is a truthy record that rebuilds the same protocol |
| Synthesis.ReplyOutcome | protocolo_extractor.py:344-368 | a protocol is produced exactly when the answer is a JSON object, and it keeps the given article and model |
| Synthesis.LLMProcessor.constructor | protocolo_extractor.py:296-299 | the model name is the one given, "gpt-4-turbo-preview" by default, and no request has been sent |
| Synthesis.LLMProcessor.GenerateProtocol | protocolo_extractor.py:301-368 | an empty or missing methods text fails before any lookup or request; a truthy cached record is rebuilt with nothing sent; otherwise exactly one chat request is sent, and the protocol is cached under its key on success only |
| Synthesis.LLMProcessor.AskModel | protocolo_extractor.py:320-364 | on a miss: the request carries the model, both prompts, temperature 0.3, 4000 tokens and the JSON response format; the answer's outcome is returned; the cache changes only on success |
| LabAssistant.KeyInjective | protocolo_lab_assistant.py:61-68 | each achievement is stored under its own key |
| LabAssistant.UnlockedIff | protocolo_lab_assistant.py:811-823 | an id is newly unlocked exactly when it is one of the three checked ids, its counter threshold holds, and it was not held before |
| LabAssistant.UnlockedInCheckingOrder | protocolo_lab_assistant.py:810-823 | newly unlocked ids come in checking order: first_search, protocol_generated, five_protocols |
| LabAssistant.NoDuplicatesPreserved | protocolo_lab_assistant.py:811-823 | a duplicate-free achievement list stays duplicate-free after a check |
| LabAssistant.CheckIsIdempotent | protocolo_lab_assistant.py:806-837 | a second check with the same counters unlocks nothing |
| LabAssistant.RewardBounds | protocolo_lab_assistant.py:826-835 | one check awards at most 85 points, and zero exactly when nothing is unlocked |
| LabAssistant.LevelsAscending | protocolo_lab_assistant.py:532-540 | the level thresholds strictly increase and end at 5000 |
| LabAssistant.NextLevelFrom | protocolo_lab_assistant.py:542-546 | the index found is the first level whose threshold is strictly above the points; None means that no level from there on is above them |
| LabAssistant.NextLevelIsLeastAbove | protocolo_lab_assistant.py:530-546 | there is a next level exactly when the points are below 5000, and it is the one with the smallest threshold above the points |
| LabAssistant.NextLevelMonotonic | protocolo_lab_assistant.py:530-546 | more points never give a lower next threshold |
| LabAssistant.Recent | protocolo_lab_assistant.py:278 | `last_searches[-3:]` is the suffix of length min(3, n), in stored order |
| LabAssistant.DayLabelInjective | protocolo_lab_assistant.py:280-285 | different day counts get different labels ("Hoy", "Ayer", "Hace N días") |
| LabAssistant.RecentListing | protocolo_lab_assistant.py:275-289 | the listing is empty exactly when there are no searches, and its last line is the newest search |
| LabAssistant.FormatSearch | protocolo_lab_assistant.py:279-287 | a line is "• query (label)", with the label taken from the whole-day age |
| LabAssistant.UserProfile.constructor | protocolo_lab_assistant.py:97-109 | a new profile has the dataclass defaults |
| LabAssistant.UserProfile.CheckAchievements | protocolo_lab_assistant.py:806-837 | the newly earned ids are appended after the held ones; the points grow by exactly their rewards; the unlocked table entries are returned in order; no other field changes |
| LabAssistant.UserProfile.Unlock | protocolo_lab_assistant.py:811-823 | one test appends its id only when the threshold holds and the id is not already held |
| LabAssistant.UserProfile.AwardPoints | protocolo_lab_assistant.py:826-835 | the points loop adds the reward of every unlocked achievement |
| LabAssistant.UserProfile.CalculateNextLevel | protocolo_lab_assistant.py:530-546 | the early-return scan returns the first level whose threshold is strictly above the points, or None |
| LabAssistant.UserProfile.FormatRecentSearches | protocolo_lab_assistant.py:275-289 | the listing is one line per recent search, in stored order, joined by newlines |
| LabAssistant.CheckTwice | protocolo_lab_assistant.py:806-837 | checking twice with unchanged counters: the second check unlocks nothing and changes neither achievements nor points |

## Left out

- File I/O of the cache directory and of the profile, JSON text (de)serialisation, and logging. The cache is an in-memory map of decoded JSON values.
- `hashlib.md5`: the digest is a function given to the cache at construction and left uninterpreted. Only the texts that are digested are compared (the key-text lemmas), since md5 collisions are not modelled.
- The HTTP session (esearch, efetch), the OpenAI client, `response.json()`, `ET.fromstring` and `json.loads`. Their outcomes are parameters: a decoded JSON value, an already-built node tree, or an error.
- `datetime.now()`: the clock is a parameter. The ISO timestamp written into a protocol (`stamp`) and the current year are separate parameters, so the model does not tie them to `now`.
- `Text.Lower`: lower-casing and `re.IGNORECASE` fold ASCII letters only. Unicode case folding (accented capitals, special folds) is not modelled.
- `Articles.DecodeArticle`: `Article(**cached)` is modelled as requiring each field to have the type the dataclass declares. Python does not check the types, so a hand-edited cache file with wrongly typed values would be accepted there and is rejected here.
- `Synthesis.LLMProcessor.GenerateProtocol`: on a cache hit, Python's `Protocol(**cached)` keeps `original_article` as a plain dict. The model decodes it into an `Article`, and rejects a record whose article does not decode.
- `Synthesis.DecodeProtocol`: `Protocol(**cached)` checks only the field names. The model also requires `original_article` to decode as an `Article` and `generated_date` and `llm_model` to be strings; a hand-edited record that breaks either rule is accepted by Python and rejected here.
- JSON numbers are reals; the distinction between JSON integers and floats is not kept.
- `ProtocolExporter.to_markdown` and `to_html`, the LaTeX and HTML previews, all Rich console output, prompts and menus, `time.sleep`, tips and quotes, the dilution calculator, progress bars, the CLI `main`, `launch_app.py` and `test_extractor.py`. These are presentation, I/O or network checks.
- `LabAssistant`: achievement ids are an enumeration of the six table keys. A hand-edited profile with an unknown id string is not representable. Profile timestamps are integers, not ISO strings.
- The descriptions (`desc`) of the achievements are kept in the table, but the console panel that shows them is not modelled.
