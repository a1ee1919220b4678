# AI Job Application Assistant — a verified model of its core rules

The AI Job Application Assistant takes a résumé upload and a job
description. It extracts the résumé's text, asks a chat-completion model
(Groq) for a summary, an optimised résumé, a rewritten résumé, a cover letter
or a mock interview, and shows the answers in a Next.js form. This project
models, in Dafny, the deterministic rules around those calls and proves what
they promise.

- **AiParsing** and **AiService** (`ai-job-backend/src/services/aiService.js`).
  - AiParsing covers:
    - code-fence removal;
    - `parseJsonFromText`, which tries the first-`{`-to-last-`}` span, then the whole text, then gives null;
    - `countLines`;
    - the two `normalizeParsed` record normalisers, with their alias chains;
    - the tolerant parse of the interview answer.
  - AiService covers:
    - the argument guards of the five exported operations;
    - the single-call operations;
    - the two-attempt flows of `generateOptimizedResume` and `generateNewResume`, which end in a fallback record.
  - The Groq client is a `ChatClient` object. It answers from a script of replies and logs every prompt it is sent.
  - Each flow is specified by a pure function of that script (`OptimizeSpec`, `NewResumeSpec`). The method that runs it statement by statement is proved to agree with that function.
- **Applications** (`ai-job-backend/src/controllers/applicationsController.js`).
  - `extractTextFromBuffer`:
    - strategy choice by suffix and parser availability;
    - the binary-content guard;
    - the fallback decoding; it never throws.
  - `createApplication`:
    - the extension allow-list;
    - the storage key;
    - the 10000-character cut and the summary gate;
    - the status codes;
    - removal of the temporary file on every path.
  - The disk and the remote services are small classes that log what they receive.
- **ResumeHelpers** and **ResumeService** (`ai-job-backend/ai-python-service/services.py`). The rule-based résumé helpers:
  - technology detection;
  - sentences and roles;
  - the project and certification section scanners;
  - experience lines and years of experience;
  - character truncation;
  - the summary fallback;
  - the interview builder;
  - technology priority, title choice and differentials of the markdown builder.

  Each loop of the source is a method proved equal to a specification function. The properties are proved about that function.
- **JobForm** (`ai-job-frontend/src/components/JobForm.tsx`). `normalizeRawItem`, `extractFromPossibleContainer`, and the fallback through wrapper keys in `handleInterview`.
- **ApiClient** (`ai-job-frontend/src/lib/api.ts`). The request bodies, the error on a non-ok status, and the coercion of every response into the record the form reads.
- **JsonValue**, **Text** and **Wrappers** are shared helpers:
  - JSON values with JavaScript's `??`, truthiness, `typeof`, `Array.isArray` and `String(...)`;
  - trimming, lower-casing, substring search and splitting on one character;
  - an `Option` type.

Among the things proved:
- fenced and unfenced model answers parse identically;
- prose around a JSON object does not disturb its parse;
- both normalisers give back the record a well-behaved model encodes;
- the optimise flow makes its second call exactly when the first answer misses the 20-50 line contract, and lets a usable second answer win;
- the extractor only returns `""` or a trimmed text that passes the guard;
- storage keys never contain whitespace;
- `priority_techs` is a permutation that puts the job's technologies first;
- the section scanners collect exactly the bullets met inside an open section;
- interview pairs survive the form's container search bare or wrapped once.
- the backend's interview parse keeps exactly the entries whose trimmed question and answer are both non-empty, in order;
- upload and summary reject a non-ok reply whose error body is not JSON on the second read of the body, not with their prefixed message.

`ResumeHelpers.ApiNeverChosen` shows that the differentials table's `"api"` entry can never fire. The test asks whether a technology name occurs inside the key. No name on the known list occurs inside `"api"`. This is modelled as written.

## Model

| member | source | states |
|---|---|---|
| Text.Trim | ai-job-backend/src/services/aiService.js:232 | `trim()` removes exactly the whitespace at both ends: the result is the infix after the leading run, it starts and ends with non-whitespace, and only whitespace follows it |
| Text.BlankIffAllWs | ai-job-backend/src/services/aiService.js:232 | a text trims to nothing exactly when every character is whitespace |
| Text.TrimmedIff | ai-job-backend/src/services/aiService.js:601 | trimming changes nothing exactly when neither end is whitespace |
| Text.TrimIdempotent | ai-job-backend/src/services/aiService.js:235 | trimming twice is trimming once |
| Text.TrimPadded | ai-job-backend/src/services/aiService.js:235 | whitespace added on either side disappears under trimming |
| Text.IndexOf | ai-job-backend/src/services/aiService.js:238 | `indexOf` gives -1 exactly when the character is absent, else the first index holding it |
| Text.LastIndexOf | ai-job-backend/src/services/aiService.js:239 | `lastIndexOf` gives -1 exactly when the character is absent, else the last index holding it |
| Text.Lower | ai-job-backend/src/controllers/applicationsController.js:13 | lower-casing keeps the length and maps each character on its own |
| Text.Split | ai-job-backend/ai-python-service/services.py:129 | `split` on one character gives at least one piece and no piece holds the separator |
| Text.JoinSplit | ai-job-backend/ai-python-service/services.py:129 | joining the pieces of a split with the separator gives the text back |
| Text.SplitConcat | ai-job-backend/src/services/aiService.js:330 | a separator after a separator-free prefix splits off exactly that prefix |
| JsonValue.Coalesce | ai-job-frontend/src/components/JobForm.tsx:162 | a `??` chain yields the value of the first key present and non-null, even when falsy, and the default when none is |
| JsonValue.FirstPresentTail | ai-job-backend/src/services/aiService.js:272-277 | when the first alias is null or absent, the winning alias is found among the rest |
| JsonValue.StringList | ai-job-backend/src/services/aiService.js:290-291 | `Array.isArray(x) ? x.map(String) : []`: one string per element of an array, `[]` otherwise |
| JsonValue.StringListOfStrings | ai-job-backend/src/services/aiService.js:290 | coercing an array of strings returns the same strings |
| AiParsing.MatchFence | ai-job-backend/src/services/aiService.js:235 | a match of the fence pattern spans two fence markers (three backticks each) at least six characters apart, and there is none without a marker |
| AiParsing.StripFences | ai-job-backend/src/services/aiService.js:235 | the global replacement leaves text without a fence match unchanged |
| AiParsing.StripFirstFence | ai-job-backend/src/services/aiService.js:766 | the single replacement leaves text without a fence match unchanged |
| AiParsing.NoBacktickNoFence | ai-job-backend/src/services/aiService.js:235 | text without a backtick is left unchanged by both replacements |
| AiParsing.TagTest | ai-job-backend/src/services/aiService.js:235 | the optional `json` tag is taken exactly when it is present, in any case |
| AiParsing.MatchOfFenced | ai-job-backend/src/services/aiService.js:235 | in a fenced text the group runs from after the tag and the whitespace to the closing fence, less the trailing whitespace |
| AiParsing.StripLastPair | ai-job-backend/src/services/aiService.js:235 | a first fence pair that ends the text is replaced by its group under both replacements |
| AiParsing.FencedReducesToInner | ai-job-backend/src/services/aiService.js:235 | a fence pair with a `json` tag or without one, around a text without backticks, reduces to the trimmed inner text |
| AiParsing.BraceSpan | ai-job-backend/src/services/aiService.js:238-241 | the span exists exactly when both braces occur and the last `}` follows the first `{`; it is that slice and starts with `{` and ends with `}` |
| AiParsing.ParseJsonFromText | ai-job-backend/src/services/aiService.js:231-255 | empty or whitespace-only text gives null |
| AiParsing.ParseOrder | ai-job-backend/src/services/aiService.js:237-254 | for non-blank text: the brace span's value when it parses, else the whole cleaned text's value when that parses, else null |
| AiParsing.BraceSpanAt | ai-job-backend/src/services/aiService.js:238-241 | the span is fixed by the first `{` and the last `}` |
| AiParsing.SpanOfTrimmed | ai-job-backend/src/services/aiService.js:235-241 | trimming does not move the brace span |
| AiParsing.ProseAroundObject | ai-job-backend/src/services/aiService.js:237-247 | an object wrapped in prose without braces or backticks parses as that object |
| AiParsing.FencedParsesLikeUnfenced | ai-job-backend/src/services/aiService.js:231-255 | fenced and unfenced answers parse identically, for every parser |
| AiParsing.FencedCleaned | ai-job-backend/src/services/aiService.js:235 | a fenced text and its inner text clean to the same text |
| AiParsing.SameCleanedSameParse | ai-job-backend/src/services/aiService.js:237-254 | only the cleaned text decides the parse of non-blank text: brace span first, whole text next, null last |
| AiParsing.CountLines | ai-job-backend/src/services/aiService.js:328-332 | the count of non-blank lines is at most the number of lines |
| AiParsing.CountLinesSplit | ai-job-backend/src/services/aiService.js:328-332 | counts add up across a line break |
| AiParsing.CountLinesZeroIffBlank | ai-job-backend/src/services/aiService.js:638-642 | the count is 0 exactly for blank text, "" included |
| AiParsing.JsCountLines | ai-job-backend/src/services/aiService.js:328-334 | a falsy field counts 0, a string counts its non-blank lines, and a truthy non-string makes `.split` throw |
| AiParsing.Score | ai-job-backend/src/services/aiService.js:278-289 | a score is kept only when numeric, camelCase before snake_case |
| AiParsing.NormalizeOptimize | ai-job-backend/src/services/aiService.js:258-300 | a falsy or non-object value gives the empty record; the resume and the analysis take the first non-null of their aliases in order, and are null when every alias is null or missing; scores and lists as above |
| AiParsing.NormalizeOptimizeRoundTrip | ai-job-backend/src/services/aiService.js:270-297 | normalising the object that encodes a record under the first aliases gives the record back |
| AiParsing.RoundTripScores | ai-job-backend/src/services/aiService.js:278-289 | the two scores survive the round trip |
| AiParsing.ClampScore | ai-job-backend/src/services/aiService.js:385-390 | a score stays present or absent, lands in 0..100, and an in-range score is unchanged |
| AiParsing.TrimmedOrNull | ai-job-backend/src/services/aiService.js:601 | the trimmed string form, or null when empty, is null exactly for blank text and otherwise a non-empty trimmed text |
| AiParsing.NormalizeNewResume | ai-job-backend/src/services/aiService.js:592-618 | a falsy or non-object value gives the empty record; the resume and the explanation are the trimmed first non-null alias or null; each change list is the stringified `changes` entry when it is an array |
| AiParsing.NormalizeNewResumeRoundTrip | ai-job-backend/src/services/aiService.js:600-617 | every record with trimmed non-empty texts survives encoding and normalisation |
| AiParsing.CoalesceFirstAlias | ai-job-backend/src/services/aiService.js:601 | an object holding only the first alias resolves to it |
| AiParsing.FallbackShape | ai-job-backend/src/services/aiService.js:795-806 | the fixed fallback has three filled pairs and three recruiter questions |
| AiParsing.QaPairs | ai-job-backend/src/services/aiService.js:771-777 | the kept pairs are no more than the entries and each has both sides non-empty |
| AiParsing.QaOf | ai-job-backend/src/services/aiService.js:773-775 | the question is the trimmed text of `question` when it is non-null, else of `pergunta`, else ""; the answer likewise from `answer` and `resposta` |
| AiParsing.Pairs | ai-job-backend/src/services/aiService.js:772-775 | one pair per entry, each `QaOf` of its entry |
| AiParsing.QaPairsFilter | ai-job-backend/src/services/aiService.js:771-777 | the kept pairs are exactly the filled pairs of the entries, taken at increasing positions: a pair is kept if and only if it is filled, and in the entries' order |
| AiParsing.RecruiterQuestions | ai-job-backend/src/services/aiService.js:780-786 | the first of `interviewerQuestions`, `questionsForRecruiter`, `perguntasParaEntrevistador` holding an array, else `[]` |
| AiParsing.ParseInterview | ai-job-backend/src/services/aiService.js:766-806 | text the parser rejects, a null result or a null `qa` entry gives the fixed fallback; otherwise `qa` is `QaPairs` of `parsed.qa` when it is an array and [] when not, and the recruiter questions are the first alias holding an array; every pair kept is filled |
| AiParsing.QaOfJson | ai-job-backend/src/services/aiService.js:773-775 | a pair read back from its object has both sides trimmed |
| AiParsing.QaPairsKeepsWellFormed | ai-job-backend/src/services/aiService.js:771-777 | an answer listing filled, trimmed pairs keeps all of them in order |
| AiService.ReplyText | ai-job-backend/src/services/aiService.js:312 | the reply's content trimmed, or "" when there is none |
| AiService.ChatClient.constructor | ai-job-backend/src/services/aiService.js:4-15 | a client with the given replies and nothing sent |
| AiService.ChatClient.Complete | ai-job-backend/src/services/aiService.js:306-311 | one call consumes the next reply (a failure once the script is exhausted) and logs the prompt |
| AiService.Guard | ai-job-backend/src/services/aiService.js:116-122 | a blank resume makes every operation but the rewrite return null, and makes the rewrite throw |
| AiService.GuardProceedIff | ai-job-backend/src/services/aiService.js:411-417 | the model is called exactly when the resume, the job description where needed, and the client are present; null exactly for a blank resume outside the rewrite; a missing-description error exactly when the resume is present and the description blank |
| AiService.FullPrompt | ai-job-backend/src/services/aiService.js:304 | the base prompt alone without an extra instruction; otherwise it starts with the base and ends with the extra |
| AiService.GenerateResumeSummary | ai-job-backend/src/services/aiService.js:20-108 | the guard's outcome without calling the client, or one call whose trimmed content (null on failure) is returned |
| AiService.GenerateCoverLetter | ai-job-backend/src/services/aiService.js:410-461 | the same for the cover letter, with the job description required |
| AiService.TextOrNullTrimmed | ai-job-backend/src/services/aiService.js:455 | a summary or letter is a trimmed text, and null exactly when the call fails or has no content |
| AiService.RequestText | ai-job-backend/src/services/aiService.js:312-316 | `runRequest` gives nothing exactly when the call throws, else the trimmed text |
| AiService.RunRequest | ai-job-backend/src/services/aiService.js:303-318 | one call with the base prompt, extended by the extra instruction when there is one |
| AiService.RawTextFallback | ai-job-backend/src/services/aiService.js:372-381 | the raw first text (null when empty) replaces the resume field and the other fields are kept |
| AiService.ClampScores | ai-job-backend/src/services/aiService.js:385-392 | both scores clamped, every other field unchanged |
| AiService.SecondOptimize | ai-job-backend/src/services/aiService.js:348-362 | the second record is used exactly when the call answered and its resume is a non-empty string |
| AiService.RetryOptimized | ai-job-backend/src/services/aiService.js:340-362 | the second call is sent with the reinforced prompt, and its usable record or nothing is returned |
| AiService.OptimizeFlow | ai-job-backend/src/services/aiService.js:320-404 | one or two calls are made |
| AiService.GenerateOptimizedResume | ai-job-backend/src/services/aiService.js:115-405 | the guard's outcome without a call, or the record `OptimizeSpec` gives for the script, with exactly the prompts of its one or two calls sent |
| AiService.OptimizeRetriesIff | ai-job-backend/src/services/aiService.js:337-339 | a second call happens exactly when the first answered, its resume field could be counted, and it lacks a resume or has fewer than 20 or more than 50 lines |
| AiService.OptimizeAcceptsFirst | ai-job-backend/src/services/aiService.js:366-369 | a first answer within the contract is returned as it is after one call |
| AiService.OptimizeSecondWins | ai-job-backend/src/services/aiService.js:353-359 | after a retry a usable second answer wins, even out of bounds |
| AiService.OptimizeFallbacks | ai-job-backend/src/services/aiService.js:371-392 | without a usable second answer: no resume gives the raw-text fallback, and an out-of-bounds resume gives the first record with both scores clamped (`ClampScores`), so its resume is kept and its scores lie in 0..100 |
| AiService.OptimizeEmptyOnError | ai-job-backend/src/services/aiService.js:393-404 | a failed first call, or a resume field `.split` cannot handle, gives the empty record after one call |
| AiService.SecondNewResume | ai-job-backend/src/services/aiService.js:655-669 | the second record is used exactly when the call answered and has a resume |
| AiService.RetryNewResume | ai-job-backend/src/services/aiService.js:646-670 | the second call with the reinforced prompt, and its record with a resume or nothing |
| AiService.GenerateNewResume | ai-job-backend/src/services/aiService.js:466-681 | the guard's outcome (a blank resume throws), or the record `NewResumeSpec` gives for the script, with the prompts of its one or two calls sent and as many replies consumed |
| AiService.NewResumeRetry | ai-job-backend/src/services/aiService.js:644-672 | a retry happens exactly when the first answer arrived and lacks a resume of 20-50 lines; a second answer with a resume wins; a failed retry keeps the first record |
| AiService.NewResumeTextsTrimmed | ai-job-backend/src/services/aiService.js:601-616 | whatever the replies, the returned resume and explanation are null or trimmed non-empty texts |
| AiService.NewResumeFlowTrimmed | ai-job-backend/src/services/aiService.js:631-680 | every record the flow can return keeps its texts trimmed |
| AiService.SimulateInterview | ai-job-backend/src/services/aiService.js:686-811 | the guard's outcome, or one call and the tolerant parse of its trimmed reply, empty lists when the call fails |
| AiService.InterviewShape | ai-job-backend/src/services/aiService.js:771-806 | every pair kept has both sides filled; an answer the parser rejects gives three pairs and three recruiter questions; a failed call gives the empty record |
| Applications.ControlCount | ai-job-backend/src/controllers/applicationsController.js:47 | the number of control characters is at most the length and is 0 exactly when there are none |
| Applications.ControlCountAppend | ai-job-backend/src/controllers/applicationsController.js:47 | counts add up over a concatenation |
| Applications.TooManyControlsIsRatio | ai-job-backend/src/controllers/applicationsController.js:48-49 | the integer test `20*n > 3*len` agrees with the ratio test `n/len > 0.15` |
| Applications.Head | ai-job-backend/src/controllers/applicationsController.js:46 | the first at most 64 characters |
| Applications.HeadStartsWith | ai-job-backend/src/controllers/applicationsController.js:46-49 | testing `%PDF` on the head is testing it on the text |
| Applications.Screen | ai-job-backend/src/controllers/applicationsController.js:43-53 | the trimmed text when it passes the guard, "" otherwise |
| Applications.ScreenAcceptable | ai-job-backend/src/controllers/applicationsController.js:43-61 | a screened text is "" or trimmed, not `%PDF`, and at most 15% control characters |
| Applications.StrategyOf | ai-job-backend/src/controllers/applicationsController.js:13-41 | pdf-parse exactly for a lower-cased `.pdf` name with the parser loaded; mammoth exactly for `.docx` with its parser otherwise; UTF-8 decoding else |
| Applications.ExtractTextFromBuffer | ai-job-backend/src/controllers/applicationsController.js:12-66 | the screened text of the chosen strategy, or of the UTF-8 fallback after an exception, and "" when that throws too; never an exception, always acceptable |
| Applications.Utf8Otherwise | ai-job-backend/src/controllers/applicationsController.js:39-41 | `.doc`, `.txt`, or a missing parser decode as UTF-8 |
| Applications.ParserFailureFallsBack | ai-job-backend/src/controllers/applicationsController.js:54-65 | a parser exception falls back to the screened UTF-8 decoding |
| Applications.MissingParserTextIsEmpty | ai-job-backend/src/controllers/applicationsController.js:35 | a parse result without text yields "" |
| Applications.StrategyIgnoresCase | ai-job-backend/src/controllers/applicationsController.js:13 | the suffix test ignores case |
| Applications.Extname | ai-job-backend/src/controllers/applicationsController.js:75 | `path.extname` is "" or starts with its only `.` and holds no `/`; it is non-empty exactly when the last component has a `.` after its first position and is not `..`, and for a slash-free name it is the name from its last `.` on |
| Applications.ExtnameIsSuffix | ai-job-backend/src/controllers/applicationsController.js:75 | a name without slashes ends with its extension |
| Applications.CollapseWs | ai-job-backend/src/controllers/applicationsController.js:81 | replacing whitespace runs by `_` leaves no whitespace and never lengthens the name |
| Applications.CollapseVisible | ai-job-backend/src/controllers/applicationsController.js:81 | every character other than whitespace and `_` is kept, in order: the name and its collapse agree once whitespace and `_` are removed from both |
| Applications.CollapseWsNoWs | ai-job-backend/src/controllers/applicationsController.js:81 | a name without whitespace is unchanged |
| Applications.CollapseRun | ai-job-backend/src/controllers/applicationsController.js:81 | a maximal whitespace run after a whitespace-free prefix becomes exactly one `_`, and the rest is collapsed after it |
| Applications.StorageKey | ai-job-backend/src/controllers/applicationsController.js:80-81 | the key is the id, `_` and the collapsed name, so it starts with the id and `_` and has no whitespace when the id has none |
| Applications.NatToStringDigits | ai-job-backend/src/controllers/applicationsController.js:80 | `Date.now().toString()` is a non-empty string of decimal digits |
| Applications.StorageKeyHasNoWs | ai-job-backend/src/controllers/applicationsController.js:80-81 | the storage key of an upload never contains whitespace |
| Applications.Disk.constructor | ai-job-backend/src/controllers/applicationsController.js:9-10 | the disk starts with the given files |
| Applications.Disk.WriteFile | ai-job-backend/src/controllers/applicationsController.js:84 | a write adds the file when it succeeds and changes nothing when it fails |
| Applications.Disk.RemoveIfExists | ai-job-backend/src/controllers/applicationsController.js:125 | the file is gone afterwards, nothing else changes |
| Applications.Backend.constructor | ai-job-backend/src/controllers/applicationsController.js:5-6 | empty logs |
| Applications.Backend.UploadFile | ai-job-backend/src/controllers/applicationsController.js:85 | logs one upload and nothing else |
| Applications.Backend.SaveApplication | ai-job-backend/src/controllers/applicationsController.js:93 | logs one saved record and nothing else |
| Applications.Backend.RequestSummary | ai-job-backend/src/controllers/applicationsController.js:105 | logs one summary request and nothing else |
| Applications.Truncate | ai-job-backend/src/controllers/applicationsController.js:99 | a prefix of length min(length, 10000) |
| Applications.CreateApplication | ai-job-backend/src/controllers/applicationsController.js:68-127 | the response `CreateResponse` describes; a rejected request touches neither disk nor services; an accepted one uploads its key once, saves the record when the upload succeeded, requests a summary only on success for texts over 50 characters, and leaves the temporary file removed |
| Applications.WrittenThenRemoved | ai-job-backend/src/controllers/applicationsController.js:84-125 | the final unlink leaves the same files whether or not the write succeeded |
| Applications.CreateStatus | ai-job-backend/src/controllers/applicationsController.js:71-123 | 400 exactly for a missing file or an extension outside the allow-list; 500 exactly when the upload or save fails; 201 otherwise |
| Applications.CreatedBody | ai-job-backend/src/controllers/applicationsController.js:96-120 | on 201 the text is a prefix of length min(length, 10000) of an acceptable extraction, the summary is null for texts of at most 50 characters, and the ids are the clock's digits |
| ResumeHelpers.SubseqStep | ai-job-backend/ai-python-service/services.py:118-120 | keeping or dropping the next element keeps a result a subsequence of its input |
| ResumeHelpers.TechsIn | ai-job-backend/ai-python-service/services.py:115-121 | no more technologies than the list |
| ResumeHelpers.TechsInMembers | ai-job-backend/ai-python-service/services.py:118-120 | a technology is reported exactly when it is listed and its lower-case form occurs in the lower-cased text |
| ResumeHelpers.TechsInOrdered | ai-job-backend/ai-python-service/services.py:104-121 | the report is a subsequence of the known list |
| ResumeHelpers.ExtractTechs | ai-job-backend/ai-python-service/services.py:115-121 | the loop computes exactly `TechsIn` of the lower-cased text and the known list |
| ResumeHelpers.FirstSplitFrom | ai-job-backend/ai-python-service/services.py:112 | the leftmost place where whitespace follows `.`, `?` or `!` |
| ResumeHelpers.StrippedNonEmpty | ai-job-backend/ai-python-service/services.py:113 | only non-empty stripped pieces are kept |
| ResumeHelpers.Sentences | ai-job-backend/ai-python-service/services.py:111-113 | every sentence is non-empty and stripped |
| ResumeHelpers.OneSentence | ai-job-backend/ai-python-service/services.py:111-113 | text without a sentence mark before whitespace is one sentence (its stripped self), or none when blank |
| ResumeHelpers.RolesIn | ai-job-backend/ai-python-service/services.py:125 | a pattern is reported exactly when it occurs as a whole word, ignoring case, in pattern order |
| ResumeHelpers.ExtractRoles | ai-job-backend/ai-python-service/services.py:123-125 | the role patterns found as whole words |
| ResumeHelpers.FeminineIsNotMasculine | ai-job-backend/ai-python-service/services.py:125 | "Desenvolvedora" yields the feminine role and not the masculine one |
| ResumeHelpers.TruncateText | ai-job-backend/ai-python-service/services.py:58-63 | a prefix of the text; for a non-negative budget of length min(length, 4*max_tokens); the text itself when short enough |
| ResumeHelpers.InJob | ai-job-backend/ai-python-service/services.py:204 | the technologies of the job, in their order |
| ResumeHelpers.NotInJob | ai-job-backend/ai-python-service/services.py:204 | the other technologies, in their order |
| ResumeHelpers.KeepSplits | ai-job-backend/ai-python-service/services.py:204 | the two groups together hold every technology once |
| ResumeHelpers.PriorityTechsPermutes | ai-job-backend/ai-python-service/services.py:201-204 | `priority_techs` is a permutation of all technologies found |
| ResumeHelpers.PriorityTechsJobFirst | ai-job-backend/ai-python-service/services.py:204 | every technology of the job precedes every other, and each group keeps its order |
| ResumeHelpers.Title | ai-job-backend/ai-python-service/services.py:213-226 | the default without a description; "fullstack" wins; the data-scientist title only when no earlier keyword occurs |
| ResumeHelpers.TitlePriority | ai-job-backend/ai-python-service/services.py:213-226 | with a description, each title is chosen exactly when its keyword occurs and no earlier keyword does, in the order fullstack, backend, frontend, data scientist, devops; the default exactly when none occurs |
| ResumeHelpers.Fired | ai-job-backend/ai-python-service/services.py:421-423 | an entry's text is emitted exactly when its key occurs in the job and a technology name occurs in the key |
| ResumeHelpers.DifferentialsOf | ai-job-backend/ai-python-service/services.py:401-434 | at most four differentials, and none without a description |
| ResumeHelpers.Differentials | ai-job-backend/ai-python-service/services.py:402-434 | the loop emits exactly `DifferentialsOf` |
| ResumeHelpers.NoKnownTechInApi | ai-job-backend/ai-python-service/services.py:104-109 | no known technology's lower-case name occurs in "api" |
| ResumeHelpers.ApiNeverChosen | ai-job-backend/ai-python-service/services.py:418-423 | for technologies from the known list the "api" entry never fires |
| ResumeHelpers.ScanOpenIff | ai-job-backend/ai-python-service/services.py:131-140 | a section is open after the lines exactly when some line opened it and no later line closed it |
| ResumeHelpers.ScanStepItems | ai-job-backend/ai-python-service/services.py:137-138 | a bullet met while the section is open appends its text after `- `, and any other line leaves the items alone |
| ResumeHelpers.ScanItemsCollected | ai-job-backend/ai-python-service/services.py:132-140 | every item collected comes from a bullet line met while the section was open |
| ResumeHelpers.ScanItemsExact | ai-job-backend/ai-python-service/services.py:132-140 | the items are exactly the bullets met inside an open section: the j-th item is the text of the j-th such line, the lines are taken in increasing order, and no such line is missed |
| ResumeHelpers.CollectingLinesExact | ai-job-backend/ai-python-service/services.py:132-140 | the collecting line positions are in range, increasing, and a line is among them exactly when it is a bullet in an open section |
| ResumeHelpers.NoOpenerNothingCollected | ai-job-backend/ai-python-service/services.py:134-135 | without an opening line nothing is collected |
| ResumeHelpers.BlankKeepsCertifications | ai-job-backend/ai-python-service/services.py:183 | a blank line neither collects nor closes a certifications section |
| ResumeHelpers.Take | ai-job-backend/ai-python-service/services.py:142 | `xs[:n]`: a prefix of length min(len, n) |
| ResumeHelpers.ExtractProjects | ai-job-backend/ai-python-service/services.py:127-142 | the first three items of the projects scan, so at most three |
| ResumeHelpers.ExtractCertifications | ai-job-backend/ai-python-service/services.py:171-186 | the items of the certifications scan |
| ResumeService.PeriodLines | ai-job-backend/ai-python-service/services.py:152-155 | each reported line is stripped and holds a period |
| ResumeService.PeriodLinesMembers | ai-job-backend/ai-python-service/services.py:152-155 | a line is reported exactly when its stripped form holds a year, a dash, "presente" or a year, and a colon |
| ResumeService.ExtractExperienceLines | ai-job-backend/ai-python-service/services.py:148-157 | the loop computes exactly `PeriodLines` of the lines |
| ResumeService.PeriodAtStart | ai-job-backend/ai-python-service/services.py:154 | "2019-2021:", "2020–presente :" and the like hold a period |
| ResumeService.DigitRun | ai-job-backend/ai-python-service/services.py:145 | the maximal run of digits at the start |
| ResumeService.YearsFrom | ai-job-backend/ai-python-service/services.py:145 | the leftmost match of digits, optional whitespace and "anos" or "year" from a position |
| ResumeService.YearsExperience | ai-job-backend/ai-python-service/services.py:144-146 | nothing exactly when no match exists, else the digits of the leftmost match and " anos" |
| ResumeService.YearsShape | ai-job-backend/ai-python-service/services.py:146 | the reported years are a non-empty run of digits followed by " anos" |
| ResumeService.KeySentences | ai-job-backend/ai-python-service/services.py:469-472 | exactly the sentences naming a keyword, in order |
| ResumeService.KeySentencesConcat | ai-job-backend/ai-python-service/services.py:469-472 | the keyword filter distributes over concatenation |
| ResumeService.SummaryShortText | ai-job-backend/ai-python-service/services.py:445-451 | blank text gives ""; at most three sentences give the text unchanged |
| ResumeService.SummaryOfLongText | ai-job-backend/ai-python-service/services.py:467-479 | longer text joins with spaces one to three of its sentences in order: keyword sentences when any exist, else the first three |
| ResumeService.TakeAtThree | ai-job-backend/ai-python-service/services.py:473-474 | stopping at three keyword sentences finds the first three |
| ResumeService.SummarizeResume | ai-job-backend/ai-python-service/services.py:443-479 | the rule-based branches compute exactly `SummaryOf` |
| ResumeService.CollectKeySentences | ai-job-backend/ai-python-service/services.py:468-474 | the loop with its early break computes the first three keyword sentences |
| ResumeService.SimulateInterview | ai-job-backend/ai-python-service/services.py:568-615 | the appends compute exactly `InterviewOf` |
| ResumeService.InterviewShape | ai-job-backend/ai-python-service/services.py:568-615 | five questions with a technology, four without; the technology question first, then the project question, then the three fixed ones |
| ResumeService.TechAnswerYears | ai-job-backend/ai-python-service/services.py:582 | the answer names the years found, or "alguns anos" |
| ResumeService.InterviewProjectAnswer | ai-job-backend/ai-python-service/services.py:586-590 | the project answer is a bullet collected inside an open projects section |
| JobForm.NormalizeRawItem | ai-job-frontend/src/components/JobForm.tsx:155-177 | null or undefined gives the empty pair; a string is a question without answer; an array gives the empty pair |
| JobForm.NormalizeObject | ai-job-frontend/src/components/JobForm.tsx:159-174 | an object's question is the first non-null of its six aliases shown with `String`, else ""; the same for the seven answer aliases |
| JobForm.NormalizeScalar | ai-job-frontend/src/components/JobForm.tsx:176 | numbers and booleans become the question text |
| JobForm.NormalizeItemJson | ai-job-frontend/src/components/JobForm.tsx:155-177 | the canonical object of a pair normalises back to the pair |
| JobForm.NormalizeAll | ai-job-frontend/src/components/JobForm.tsx:182 | one pair per element, in order |
| JobForm.FirstArrayKey | ai-job-frontend/src/components/JobForm.tsx:198-201 | the first candidate key holding an array, or none when no key does |
| JobForm.ExtractFromPossibleContainer | ai-job-frontend/src/components/JobForm.tsx:179-211 | anything that is not an object or array yields `[]` |
| JobForm.ArrayContainer | ai-job-frontend/src/components/JobForm.tsx:181-183 | an array maps element by element, so the length is kept |
| JobForm.KeyedContainer | ai-job-frontend/src/components/JobForm.tsx:186-201 | the first candidate key holding an array wins, whatever later keys hold |
| JobForm.UnkeyedContainer | ai-job-frontend/src/components/JobForm.tsx:203-210 | without such a key, an object naming a question or answer field is one item, any other object nothing |
| JobForm.ExtractItemsJson | ai-job-frontend/src/components/JobForm.tsx:179-211 | pairs sent as an array, bare or under any candidate key, come back unchanged |
| JobForm.AltContainer | ai-job-frontend/src/components/JobForm.tsx:223 | the first non-null of interview, body, payload, result, data, else whatever data holds |
| JobForm.TopLevelWins | ai-job-frontend/src/components/JobForm.tsx:217-231 | items found at the top level are used as they are |
| JobForm.WrapperFallback | ai-job-frontend/src/components/JobForm.tsx:219-229 | otherwise the first non-null wrapper decides, and the list is empty when it yields nothing |
| JobForm.NoWrapperNothing | ai-job-frontend/src/components/JobForm.tsx:219-229 | with no top-level items and every wrapper null or missing, the list is empty |
| JobForm.WrappedItems | ai-job-frontend/src/components/JobForm.tsx:217-231 | pairs wrapped once under a wrapper key, bare or keyed, come back unchanged |
| ApiClient.ReadJson | ai-job-frontend/src/lib/api.ts:64-69 | for the endpoints that read an error body as text: a non-ok status rejects with the endpoint's prefix and the status, whatever the body; an ok reply gives the parsed body, or rejects when it is not JSON |
| ApiClient.ReadJsonOrDetails | ai-job-frontend/src/lib/api.ts:17-26 | for upload and summary: a non-ok status rejects with the prefix and the status exactly when the error body is JSON, and on reading the used body again when it is not; an ok reply is read as `ReadJson` reads it |
| ApiClient.BuildRequestBody | ai-job-frontend/src/lib/api.ts:54-56 | `jobDescription` when given, and `resume_id`/`resumeText` exactly when truthy; no other key |
| ApiClient.OrNull | ai-job-frontend/src/lib/api.ts:71 | `x ?? null` is null exactly for null or undefined, else the value |
| ApiClient.ArrayOr | ai-job-frontend/src/lib/api.ts:177 | the array's elements, or `[]` for anything else |
| ApiClient.ChangeList | ai-job-frontend/src/lib/api.ts:72-76 | `changes.k` when an array, else the top-level `k` when an array, else `[]` |
| ApiClient.NewResumeOf | ai-job-frontend/src/lib/api.ts:69-78 | fails exactly on a null body, where reading a property throws; otherwise the resume and the explanation are null exactly when their fields are null or undefined, and are the fields' own values when not, and each change list is the one `ChangeList` picks |
| ApiClient.OptimizeOf | ai-job-frontend/src/lib/api.ts:102-110 | fails exactly on a null body; a score is kept exactly when numeric, with its value; `strengths` and `gaps` only when arrays, else `[]`; the markdown and the behavioural analysis are each null exactly when their field is null or undefined, and the field's own value when not |
| ApiClient.OptimizeRoundTrip | ai-job-frontend/src/lib/api.ts:103-110 | coercing the body that encodes any response gives that response back |
| ApiClient.CoverLetterOf | ai-job-frontend/src/lib/api.ts:135-136 | fails exactly on a null body; the letter is null exactly when the field is null or undefined, and the field's own value when not |
| ApiClient.CoverLetterRoundTrip | ai-job-frontend/src/lib/api.ts:135-136 | a body carrying any letter, or null, under its key gives that letter back |
| ApiClient.InterviewerQuestionsOf | ai-job-frontend/src/lib/api.ts:166-174 | the first alias holding an array, or no questions |
| ApiClient.InterviewOf | ai-job-frontend/src/lib/api.ts:163-179 | the reassigned `let` gives the first array alias, and `qa` is kept only as an array |
| ApiClient.InterviewerAliasOrder | ai-job-frontend/src/lib/api.ts:167-174 | interviewerQuestions before questionsForRecruiter before perguntasParaEntrevistador, else `[]` |
| ApiClient.Then | ai-job-frontend/src/lib/api.ts:64-69 | a rejection passes through and a parsed body is coerced |
| ApiClient.GenerateNewResume | ai-job-frontend/src/lib/api.ts:49-79 | the body holds exactly the truthy ids, each with its own value as a string, and the outcome is the coerced reply |
| ApiClient.GenerateOptimizedResume | ai-job-frontend/src/lib/api.ts:81-111 | the body holds the description and exactly the truthy ids, each with its own value, and the outcome is the coerced reply |
| ApiClient.GenerateCoverLetter | ai-job-frontend/src/lib/api.ts:114-137 | the body holds the description and exactly the truthy ids, each with its own value, and the outcome is the coerced reply |
| ApiClient.SimulateInterview | ai-job-frontend/src/lib/api.ts:139-180 | the body holds the description and exactly the truthy ids with their values; a non-ok status rejects with the prefix and status, a body that is not JSON rejects, a null body rejects on the property read, and any other body gives its `qa` array and recruiter questions |
| ApiClient.NonOkRejects | ai-job-frontend/src/lib/api.ts:17-43 | a non-ok status rejects every endpoint and no record is returned; upload and summary carry their prefix and the status only for a JSON error body, the other endpoints whatever the body |
| ApiClient.NewResumeChanges | ai-job-frontend/src/lib/api.ts:72-76 | nested change lists win, and absent ones fall back to the top level |

## Left out

- The Groq SDK is a scripted `ChatClient`. Prompt texts are parameters, and so is the retry instruction, which the source writes as a non-empty literal.
- `JSON.parse` is the parameter `parse` (`None` when it throws). Every parse property holds for any parser.
- Numbers are integers, so `Math.round` is the identity. Floating-point rounding of fractional scores is not modelled.
- Strings are sequences of Unicode scalars, not UTF-16 code units.
- Whitespace for `trim`, `strip` and `\s` is a fixed ASCII set: space, tab, LF, CR, VT and FF. Unicode spaces are not modelled.
- Lower-casing covers ASCII and Latin-1 capitals only.
- `\d` is ASCII digits.
- ResumeHelpers.IsWordChar: the `\w` behind the role test covers the alphanumeric characters of ASCII and Latin-1, not all of Unicode.
- The model-backed branches of `summarize_resume` and `truncate_text` are not modelled: Hugging Face pipelines and tokenizers.
- `_extract_education`, the markdown text assembly of `_generate_resume_markdown_programmatic`, and the model-backed generators of services.py are not modelled. Of the markdown builder, only the technology priority, the title and the differentials are modelled.
- Module loading is a parameter (the client exists or not), and so are environment variables.
- pdf-parse, mammoth and `buffer.toString` are outcomes in `Extractors`.
- S3, DynamoDB, axios and the file system are outcomes in `Services` and small logging classes.
- `Date.now()` is the parameter `now`.
- The record's `createdAt` timestamp is left out.
- `path.join` is simple concatenation under a fixed uploads directory.
- Applications.CreateApplication: the error `details` text of the 500 response is not modelled.
- ApiClient.ReadJson: the `details` text of the thrown message is not modelled. Only the endpoint's prefix and the status are.
- JobForm.InterviewItemsOf has no own contract. The React state setters, `alert`, and the rest of the form are left out. The behaviour is stated by TopLevelWins, WrapperFallback, NoWrapperNothing and WrappedItems.
- ApiClient.UploadResume and ApiClient.GenerateResumeSummary have no own contract. Both return the parsed body as is, read by ReadJsonOrDetails; NonOkRejects states their error path.
- ResumeHelpers.FeminineIsNotMasculine is one concrete instance of the whole-word test; the general statement is RolesIn's contract.
- ResumeHelpers.DifferentialsOf: the contract states the bound of four and the empty case. It does not state which entries fire; Fired states that.
- AiParsing.ParseJsonFromText: its own contract states only the blank case. The parse order is stated by ParseOrder.
- The fence regex is modelled by hand for this one pattern, with no general regex engine. The lemmas about fenced answers assume an inner text without backticks.
- Logging is not modelled.
