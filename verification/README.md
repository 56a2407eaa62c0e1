# TailorCV core in Dafny

TailorCV tailors a résumé to a job posting. This project models the parts
of it that carry checkable logic:

- **Job loading** (`JobLoader`, `JobPatterns`, `JobKeywords`). The posting is
  cleaned line by line: page-chrome lines are dropped, e-mail addresses and
  URLs are blanked out, and whitespace is collapsed. A newline-delimited
  keyword lexicon is parsed, with comments and deduplication. Keywords are
  then extracted: lexicon hits sorted stably by first offset, followed by
  frequency-ranked tokens that pass the junk filter, merged, deduplicated
  and truncated.
- **Selection validation** (`SelectionValidator`, over the records of
  `Profiles`). An LLM's selection plan is checked against the profile.
  Unknown ids, labels and bullet-override keys are reported in a fixed
  order, and so is a plan that would produce an empty résumé.
- **Selection prompt and retry loop** (`SelectionPrompt`, `Selector`). The
  request record is built from the profile, the job and any retry feedback.
  A bounded loop asks a provider for a plan, validates each answer strictly,
  and retries with the last attempt's errors as feedback. A ghost history
  records every request sent.
- **Small helpers**:
  - the one-entry-type-per-section rule of the RenderCV schema
    (`RenderCvSchema`);
  - response-text extraction, code-fence stripping and error classification
    of the OpenAI provider (`OpenAiProvider`);
  - precedence of provider, model and API key (`Runtime`);
  - environment-variable and keyring lookup of API keys (`Secrets`).

`Wrappers` (Option/Result), `Text` (string functions with Python's
semantics) and `Seqs` (dedup, slicing, filtering and a stable sort) are
shared helpers.

## Conventions

- Case and word characters follow ASCII rules: `str.lower`, regex `\w`,
  `[a-z0-9]` and `re.IGNORECASE` act on ASCII letters only. Whitespace is
  not limited to ASCII: `IsSpace` is the full set `str.isspace` accepts
  (the same set regex `\s` matches), including U+0085, U+00A0 and U+3000.
- `str.splitlines` is modelled on its ASCII line breaks plus `\x85`, U+2028
  and U+2029.
- Python's `re` patterns are written out as the scans the engine performs.
  This covers the `\b`-bounded noise phrases, the e-mail and URL patterns,
  the token pattern and the single-word lexicon boundary.
- The stable sort by offset is a sort by (key, original position).
  `Counter.most_common` orders by count, with ties in order of first
  appearance.
- Exceptions become `Result` failures carrying the exception's message.
- The environment, the keyring, the persisted configuration, the file
  contents, and the provider's answers are inputs:
  - the environment is a map;
  - the keyring is a map or a failure mode;
  - the persisted configuration is the loaded value or the message of its
    load error;
  - the file contents are strings, or `None` when no lexicon file exists;
  - the provider is a function from (attempt number, request) to a plan or
    an error message.
- `feedback_errors=None` and an empty feedback list both leave the retry
  feedback out, so `None` is written as the empty sequence.

Where the description of the system and the code differ, the model follows
the code:

- The junk filter's allow-list for `k8s`, `c++` and `c#` never takes effect.
  `c#` is dropped earlier by the length test. `k8s` and `c++` match no junk
  pattern, so they pass anyway. `JobKeywords.RescueUnreachable` proves that
  no token reaches the allow-list test.
- Tokens are stripped of `._-/` at both ends, not only at the end.
- Pattern `^\w{12,}$` already drops every purely alphanumeric token of 12 or
  more characters. So the vowel test only ever sees tokens that contain
  `+ # . - /` (`JobKeywords.VowelTestSeesPunctuation`).

## Model

| member | source | states |
|---|---|---|
| JobLoader.CleanText | tailorcv/loaders/job_loader.py:167-207 | the line loop computes the normalised text of the kept lines, which has no whitespace at either end, never two whitespace characters in a row, and no whitespace other than the plain space |
| JobLoader.KeptLinesExact | tailorcv/loaders/job_loader.py:183-203 | a cleaned line is kept iff some input line is non-blank after stripping, longer than three characters, free of every noise phrase, and scrubs to it |
| JobLoader.LexiconEntry | tailorcv/loaders/job_loader.py:246-253 | a term read from a lexicon line is non-empty, has no edge whitespace and no `#` |
| JobLoader.LexiconEntryPlace | tailorcv/loaders/job_loader.py:246-253 | a line holds a term iff something other than whitespace precedes its first `#` (or its end); the term then occurs in the line right after the leading whitespace, and only whitespace lies between it and that `#`, so no `#` comes before its end |
| JobLoader.LexiconEntryRoundTrip | tailorcv/loaders/job_loader.py:246-253 | a term padded with whitespace reads back as the term, with or without a following `#` comment |
| Text.Collapse | tailorcv/loaders/job_loader.py:207 | collapsing whitespace never lengthens the text and leaves no edge whitespace, no two whitespace characters in a row, and only plain spaces |
| Text.CollapseIsJoinedWords | tailorcv/loaders/job_loader.py:276 | collapsing whitespace is joining the words of the text by single spaces |
| JobLoader.NormTermShape | tailorcv/loaders/job_loader.py:267-276 | normalising a lexicon entry gives a non-empty, lower-case term with single plain spaces and no edge whitespace |
| JobLoader.LexiconTermsExact | tailorcv/loaders/job_loader.py:245-253 | a term is collected iff some line holds an entry that normalises to it |
| JobLoader.ParseLexiconSpec | tailorcv/loaders/job_loader.py:244-261 | the parsed lexicon is duplicate-free, holds only normalised terms, holds exactly the collected terms, and keeps them in order of first occurrence |
| JobPatterns.EmailSubWithoutAt | tailorcv/loaders/job_loader.py:94 | text without `@` passes the e-mail substitution unchanged |
| JobPatterns.UrlSubWithoutPrefix | tailorcv/loaders/job_loader.py:95 | text with no `http://`, `https://` or `www.` (any case) passes the URL substitution unchanged |
| JobPatterns.EmailMatchShape | tailorcv/loaders/job_loader.py:94 | every e-mail match has a non-empty local part, an `@`, a non-empty domain, a `.` and a word character after it |
| JobPatterns.EmptyDomainKept | tailorcv/loaders/job_loader.py:94 | the domain group must match at least one character: `x@.com` has no match anywhere and passes the substitution unchanged |
| JobPatterns.SubFromUnchanged | tailorcv/loaders/job_loader.py:201-202 | a substitution that finds no match leaves the text as it was |
| JobKeywords.FirstSingleHit | tailorcv/loaders/job_loader.py:367-372 | the search finds the first case-insensitive occurrence of a single-word term not touching a letter or digit on either side, and reports none only when there is no such occurrence |
| JobKeywords.HitOffsetSome | tailorcv/loaders/job_loader.py:356-372 | a term has a hit offset iff it is non-empty and hits the text: as a substring when it contains a space, as a boundary-delimited word otherwise |
| JobKeywords.LexiconHitsExact | tailorcv/loaders/job_loader.py:356-376 | a term is a lexicon hit iff it is in the lexicon and hits the text |
| JobKeywords.LexiconHitsOrdered | tailorcv/loaders/job_loader.py:374-376 | hits come in non-decreasing order of first offset, and a duplicate-free lexicon keeps lexicon order among equal offsets |
| JobKeywords.LexiconHitsDistinct | tailorcv/loaders/job_loader.py:354-376 | a duplicate-free lexicon gives duplicate-free hits |
| JobKeywords.EmptyLexiconNoHits | tailorcv/loaders/job_loader.py:351-352 | an empty lexicon gives no hits |
| JobKeywords.TokensFrom | tailorcv/loaders/job_loader.py:99-107 | every token starts with a letter and holds only letters, digits and `+ # . - /` |
| JobKeywords.TokensExact | tailorcv/loaders/job_loader.py:99-107 | the tokens are, in order, the texts of non-overlapping spans, each starting at a letter, holding only token characters and not followed by one (maximal), and every letter of the text lies in one of them (complete) |
| JobKeywords.AdmittedExact | tailorcv/loaders/job_loader.py:396-427 | a token is admitted iff it passes the early filters, matches no junk pattern, and is not a vowel-free token of 12 or more characters |
| JobKeywords.RescueUnreachable | tailorcv/loaders/job_loader.py:416-420 | no token that passes the early filters and matches a junk pattern is `k8s`, `c++` or `c#`, so the rescue branch never runs |
| JobKeywords.VowelTestSeesPunctuation | tailorcv/loaders/job_loader.py:424-425 | every token that reaches the vowel test contains a character outside `\w` |
| JobKeywords.MostCommonSpec | tailorcv/loaders/job_loader.py:429-430 | exactly min(n, number of distinct tokens) words, each once, each a token; a word listed before another is more frequent, or equally frequent and first seen earlier; every token left out ranks after every word listed |
| JobKeywords.FrequencyKeywordsSpec | tailorcv/loaders/job_loader.py:379-435 | frequency keywords are bounded by the candidate count and duplicate-free; each is an admitted, non-soft token of the text; they are in frequency order; every non-soft candidate left out ranks after every keyword, and none is left out when the candidates fit the bound |
| JobKeywords.FrequencyKeywordShape | tailorcv/loaders/job_loader.py:396-433 | each frequency keyword has 3–32 characters, is no stopword or soft word, has no `@`, has no `http`/`www` prefix, is not junk, and has a vowel if it has 12 or more characters |
| JobKeywords.ExtractKeywords | tailorcv/loaders/job_loader.py:284-335 | the keywords are the merge of the lexicon hits and the frequency keywords of the lower-cased text |
| JobKeywords.MergeKeywords | tailorcv/loaders/job_loader.py:317-334 | the two loops, their early stops and the final slice produce the first `max_keywords` distinct entries of the hits followed by the frequency keywords, or none when the bound is not positive |
| JobKeywords.MergeLoop | tailorcv/loaders/job_loader.py:320-333 | one merge loop keeps the first occurrence of every candidate and stops exactly when the bound is reached |
| JobKeywords.KeywordsSpec | tailorcv/loaders/job_loader.py:317-334 | merged keywords are distinct and bounded by `max_keywords`; each is a hit or a frequency keyword; no frequency-only keyword precedes a hit |
| JobKeywords.KeywordsWithoutHits | tailorcv/loaders/job_loader.py:320-334 | with no lexicon hits, the keywords are the leading frequency keywords |
| JobKeywords.BuildJob | tailorcv/loaders/job_loader.py:146-159 | a loaded job keeps its raw text, holds its cleaned text, and its keywords are the merge of the lexicon hits and the frequency keywords of the lower-cased cleaned text: distinct and bounded by `max_keywords` |
| JobKeywords.NoLexiconFrequencyOnly | tailorcv/loaders/job_loader.py:263-264 | without a lexicon file the job still loads, with the leading frequency keywords as its keywords |
| Profiles.PresentIdsComprehension | tailorcv/llm/selection_prompt.py:79-81 | the id list is the comprehension `[x.id for x in xs if x.id]`: the present, non-empty ids in entry order, repeats kept |
| Profiles.IdListsExact | tailorcv/llm/selection_prompt.py:79-81 | each id list holds exactly the non-empty ids of its entries, and equals the comprehension over them, in profile order |
| SelectionValidator.Validate | tailorcv/validators/selection_validator.py:27-81 | validation fails iff it is strict and the plan is inconsistent with the profile; a failure carries every error and at least one |
| SelectionValidator.ErrorsEmptyIff | tailorcv/validators/selection_validator.py:49-78 | the error list is empty iff every selected id, label and override key is known and the plan does not yield an empty résumé |
| SelectionValidator.UnknownErrorsSpec | tailorcv/validators/selection_validator.py:84-115 | the errors for a list are the messages of its unknown items, in the order given, repeats included |
| SelectionValidator.UnknownErrorsEmpty | tailorcv/validators/selection_validator.py:91-98 | a list yields no errors iff every item in it is known |
| SelectionValidator.UnknownReported | tailorcv/validators/selection_validator.py:92-98 | every unknown item is reported |
| SelectionValidator.EntryIdsExact | tailorcv/validators/selection_validator.py:123-127 | an override key is valid iff it is the non-empty id of an experience, project or education entry |
| SelectionValidator.UnknownExperienceReported | tailorcv/validators/selection_validator.py:51-56 | an unknown experience id is reported as "Unknown experience id: …" |
| SelectionValidator.UnknownOverrideReported | tailorcv/validators/selection_validator.py:118-134 | an override key naming no entry id is reported |
| SelectionValidator.EmptyResumeOnce | tailorcv/validators/selection_validator.py:137-160 | the empty-résumé error appears exactly once when every effective selection is empty, and never otherwise |
| SelectionValidator.ErrorsIgnoreOrderAndBullets | tailorcv/validators/selection_validator.py:49-78 | the errors depend only on the selected ids, labels and override keys, not on section order or bullet text |
| SelectionPrompt.BuildSelectionInvocation | tailorcv/llm/selection_prompt.py:26-74 | fixed system prompt; retry feedback is present iff feedback is non-empty, and is that feedback; keywords are the first min(40, n); the excerpt is the Python prefix slice of the cleaned text for either sign of the bound |
| SelectionPrompt.ProfilePayloadOf | tailorcv/llm/selection_prompt.py:87-134 | one summary per profile entry, ids included even when absent, in profile order |
| SelectionPrompt.AllowedValuesExact | tailorcv/llm/selection_prompt.py:77-84 | the allowed id lists are the non-empty entry ids in profile order, the skill labels are every profile label in order, and the section titles are the fixed four |
| SelectionPrompt.AllowedIdsSummarised | tailorcv/llm/selection_prompt.py:79-104 | every allowed experience id belongs to a summarised experience |
| SelectionPrompt.AllowedPlanOnlyRisksEmptyResume | tailorcv/validators/selection_validator.py:49-78 | a plan using only allowed values can fail validation only by yielding an empty résumé |
| SelectionPrompt.FeedbackOnlyChangesRetryField | tailorcv/llm/selection_prompt.py:47-74 | feedback changes nothing in the request but the retry feedback |
| Selector.JudgeSpec | tailorcv/llm/selector.py:110-124 | an answer is accepted iff it is a plan with no validation errors; a rejected plan's errors become the feedback and are joined into the message; a provider error becomes both message and feedback |
| Selector.JudgeMeaning | tailorcv/llm/selector.py:110-124 | accepted iff the plan is consistent with the profile; every rejection carries feedback |
| Selector.GenerateSelectionPlan | tailorcv/llm/selector.py:94-126 | a bound below one is refused and a set-up failure is reported as attempt 0, before any request. Otherwise 1 to N requests are sent in order; success returns a plan with no errors; failure comes after exactly N rejections with one record per attempt |
| Selector.Attempts | tailorcv/llm/selector.py:101-126 | the attempt loop sends each request with the previous rejection's feedback and stops at the first accepted plan or after N attempts |
| Selector.SentStep | tailorcv/llm/selector.py:101-124 | one more rejected attempt extends the history in order and the record list by that attempt's record |
| Selector.FeedbackReplaced | tailorcv/llm/selector.py:116-124 | every retry carries exactly the previous attempt's feedback, so feedback is replaced and never accumulated |
| Selector.FirstAttemptWithoutFeedback | tailorcv/llm/selector.py:98-108 | the first request carries no retry feedback |
| Selector.RecordsNumbered | tailorcv/llm/selector.py:101-124 | attempt records are numbered 1, 2, … in order |
| Selector.SetupFailureMessage | tailorcv/llm/selector.py:64-69 | a set-up failure reads "Selection generation failed after 1 attempts: attempt 0: " followed by the configuration error |
| RenderCvSchema.ClassifyLabels | tailorcv/schema/rendercv_schema.py:161-181 | classification is total: a known label for every entry, "TextEntry" exactly for strings, "Unknown" exactly for values of no known type |
| RenderCvSchema.ClassifySeparatesKinds | tailorcv/schema/rendercv_schema.py:161-181 | two entries get the same label iff they are of the same type |
| RenderCvSchema.EnforceOneTypePerSection | tailorcv/schema/rendercv_schema.py:184-199 | sections come back unchanged iff every section's entries share its first entry's type (empty sections included); otherwise the error names the section, the first type, and the 1-based position and type of the first mismatch |
| RenderCvSchema.UniformByLabels | tailorcv/schema/rendercv_schema.py:191-198 | comparing entry types is comparing the classifier's labels: a section is uniform iff every entry has its first entry's label |
| RenderCvSchema.FirstMismatch | tailorcv/schema/rendercv_schema.py:191-198 | the inner loop finds the first entry whose type differs from the first entry's, or none iff the section is uniform |
| RenderCvSchema.FirstMixUnique | tailorcv/schema/rendercv_schema.py:188-198 | the reported mismatch is unique: a single first section and position |
| OpenAiProvider.ExtractResponseText | tailorcv/llm/providers/openai_provider.py:116-140 | string content comes back unchanged; list content gives its text parts joined and stripped; missing or other content gives "" |
| OpenAiProvider.StringParts | tailorcv/llm/providers/openai_provider.py:128-137 | the texts of exactly the parts whose `text` is a string, in part order, repeats kept |
| OpenAiProvider.TwoPartsJoined | tailorcv/llm/providers/openai_provider.py:127-139 | text parts are joined in order by a newline, parts without text are skipped, and the result is stripped |
| OpenAiProvider.StripJsonCodeFences | tailorcv/llm/providers/openai_provider.py:143-149 | the result never has edge whitespace, and unfenced text is only stripped |
| OpenAiProvider.JsonFenceRoundTrip | tailorcv/llm/providers/openai_provider.py:145-146 | a body wrapped in a "```json" fence comes back as the body |
| OpenAiProvider.PlainFenceRoundTrip | tailorcv/llm/providers/openai_provider.py:147-148 | a body wrapped in a bare fence comes back as the body |
| OpenAiProvider.ShortFencedTextEmpty | tailorcv/llm/providers/openai_provider.py:147-148 | fenced text of six characters or fewer, such as "````", yields "" |
| OpenAiProvider.GenerateStructured | tailorcv/llm/providers/openai_provider.py:69-97 | a failed request is a request error; an empty answer, unparseable JSON and a schema mismatch are response errors with their own messages; a parse that validates gives exactly the validated value |
| OpenAiProvider.EmptyResponseSkipsParsing | tailorcv/llm/providers/openai_provider.py:82-84 | an empty answer is rejected before the parser or validator is used |
| OpenAiProvider.FencedAnswerParsedInside | tailorcv/llm/providers/openai_provider.py:86-90 | a fenced answer reaches the parser as the text inside the fence |
| Secrets.EnvVarName | tailorcv/config/secrets.py:34-46 | the variable is the upper-cased normalised provider plus "_API_KEY"; for OpenAI that is "OPENAI_API_KEY" |
| Secrets.AccountName | tailorcv/config/secrets.py:139-140 | the account is the stripped, lower-cased provider name followed by "_api_key" |
| Secrets.AccountNameInjective | tailorcv/config/secrets.py:139-140 | two provider names share a keyring account iff they normalise alike |
| Secrets.NamesFollowNormalized | tailorcv/config/secrets.py:43-46 | variable and account names depend only on the stripped, lower-cased provider name |
| Secrets.GetStoredApiKey | tailorcv/config/secrets.py:71-90 | a reachable keyring gives the stored secret or none; a missing package, missing backend or keyring error becomes a secret-store error |
| Secrets.SetApiKey | tailorcv/config/secrets.py:93-113 | storing succeeds iff a keyring backend is reachable; it sets the provider's entry to the key and leaves every other entry as it was; each failure mode has its own message |
| Secrets.DeleteApiKey | tailorcv/config/secrets.py:116-136 | deleting succeeds iff a backend is reachable, also when nothing is stored; it removes only the provider's entry; each failure mode has its own message |
| Secrets.SetThenGet | tailorcv/config/secrets.py:93-113 | a stored key is read back under any spelling of the same provider, and other providers read what they read before |
| Secrets.DeleteThenGet | tailorcv/config/secrets.py:116-136 | after deletion, reading finds nothing |
| Secrets.GetApiKey | tailorcv/config/secrets.py:49-68 | a non-blank environment value wins, stripped; otherwise the keyring is read |
| Secrets.EnvironmentShadowsKeyring | tailorcv/config/secrets.py:63-66 | when the environment supplies the key, the keyring's state does not matter, even if it would fail |
| Runtime.NonBlank | tailorcv/llm/runtime.py:74-78 | an override counts iff present and not blank, and then it is used stripped |
| Runtime.ResolveLlmRuntimeConfig | tailorcv/llm/runtime.py:39-96 | a config-load error surfaces as is; the provider is the override or the persisted one; the model is the non-blank override stripped or the persisted one; an empty model fails; a non-blank key override is used stripped; with a loaded configuration, a usable model and a non-blank key override the call always succeeds; success always has a model and a key |
| Runtime.KeyOverrideSkipsLookup | tailorcv/llm/runtime.py:78-79 | with a non-blank key override, the environment and keyring are never consulted |
| Runtime.KeyLookupFailures | tailorcv/llm/runtime.py:80-90 | without an override, a secret-store error surfaces as is; a missing or empty key fails with a message naming the provider's variable; any other key is used |
| Runtime.EnvironmentKeyResolves | tailorcv/llm/runtime.py:67-96 | with no overrides, a usable environment value and a persisted model always resolve, with the stripped value as key |

## Left out

- File and OS access:
  - reading the job file and its "not found" and "read failed" errors;
  - finding the lexicon file;
  - loading profiles, plans and the configuration;
  - the real environment and keyring.

  Their results are inputs (`BuildJob` takes the raw text and the lexicon text).
- Non-ASCII behaviour of `str.lower`, `\w` and `re.IGNORECASE` (Unicode case mapping and folding). Case and word characters are ASCII in the model; whitespace is the full `str.isspace` set.
- JSON rendering of the request payload (`json.dumps`), JSON parsing (`json.loads`) and pydantic validation. The payload is a record, and parsing and validation are function parameters.
- The OpenAI SDK client, its lazy construction and the missing-package error of the default client factory.
- Exceptions other than provider errors and validation failures. The source lets them escape the retry loop, and they are not simulated.
- The provider router, CLI, debug tooling, pipeline composition and RenderCV's own validation: no logic of the core.
- Entry fields that the classifier ignores: dates, location, summary, highlights and extra keys.
- The selection plan's conversion to the internal plan (`to_selection_plan`): a field copy, with the plan modelled directly.
- Selector.GenerateSelectionPlan: set-up is an input (success, or the runtime configuration error's message). It is not computed from `Runtime.ResolveLlmRuntimeConfig`, and an injected client is a successful set-up.
- Secrets.GetApiKey: the keyring error classes are modelled as the four keyring states, not as Python exception types.
