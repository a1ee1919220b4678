/** The browser-side client of ai-job-frontend/src/lib/api.ts: the request
    bodies it builds, the way it turns a non-ok HTTP status into an error,
    and the coercion of each response into the record the form reads.
    `fetch` is an input here: the reply the server gave. */
module ApiClient {
  import opened Wrappers
  import opened JsonValue

  /** What `fetch` resolved to: `res.ok`, `res.status`, and the body as
      `res.json()` reads it (`None` when the body is not JSON, so that
      `res.json()` rejects). */
  datatype HttpReply = HttpReply(ok: bool, status: nat, json: Option<Json>)

  /** Why a call rejects. `HttpError` is the `Error` thrown for a non-ok
      status, with the message prefix of its endpoint; `BodyNotJson` is
      `res.json()` rejecting; `NullBody` is the `TypeError` of reading a
      property of a `null` body; `BodyUsed` is the `TypeError` of reading a
      body a second time. */
  datatype ApiError = HttpError(prefix: string, status: nat) | BodyNotJson | NullBody | BodyUsed

  datatype Outcome<T> = Ok(value: T) | Err(error: ApiError)

  const UploadFailed: string := "Upload falhou"
  const SummaryFailed: string := "Falha ao gerar resumo"
  const NewResumeFailed: string := "Erro na geração de currículo (novo)"
  const OptimizeFailed: string := "Erro na geração de currículo (otimizado)"
  const CoverLetterFailed: string := "Erro ao gerar carta de apresentação"
  const InterviewFailed: string := "Erro ao gerar simulação de entrevista"

  /** `if (!res.ok) throw ...; const json = await res.json();` */
  function ReadJson(reply: HttpReply, prefix: string): (r: Outcome<Json>)
    ensures !reply.ok <==> r == Err(HttpError(prefix, reply.status))
    ensures reply.ok ==> (r.Ok? <==> reply.json.Some?)
    ensures r.Ok? ==> r.value == reply.json.value
  {
    if !reply.ok then Err(HttpError(prefix, reply.status))
    else if reply.json.None? then Err(BodyNotJson)
    else Ok(reply.json.value)
  }

  /** `uploadResume` and `generateResumeSummaryAPI` read a non-ok body with
      `res.json()` and, when that rejects, with `res.text()`. The first read
      has already used the body, so the second one rejects too: the
      prefixed error is thrown only for an error body that is JSON. */
  function ReadJsonOrDetails(reply: HttpReply, prefix: string): (r: Outcome<Json>)
    ensures (!reply.ok && reply.json.Some?) <==> r == Err(HttpError(prefix, reply.status))
    ensures (!reply.ok && reply.json.None?) <==> r == Err(BodyUsed)
    ensures reply.ok ==> r == ReadJson(reply, prefix)
  {
    if !reply.ok then
      if reply.json.Some? then Err(HttpError(prefix, reply.status)) else Err(BodyUsed)
    else ReadJson(reply, prefix)
  }

  /*************************************************************************
   * Request bodies (api.ts:54-56, 87-89, 120-122, 148-150)
   *************************************************************************/

  /** JavaScript truthiness of an optional string parameter. */
  predicate TruthyText(s: Option<string>) {
    s.Some? && s.value != ""
  }

  /** `const body = {}` or `{ jobDescription }`, then `resume_id` and
      `resumeText` assigned only when truthy. */
  method BuildRequestBody(jobDescription: Option<string>, resumeId: Option<string>, resumeText: Option<string>)
    returns (body: map<string, Json>)
    ensures "jobDescription" in body <==> jobDescription.Some?
    ensures jobDescription.Some? ==> body["jobDescription"] == JStr(jobDescription.value)
    ensures "resume_id" in body <==> TruthyText(resumeId)
    ensures TruthyText(resumeId) ==> body["resume_id"] == JStr(resumeId.value)
    ensures "resumeText" in body <==> TruthyText(resumeText)
    ensures TruthyText(resumeText) ==> body["resumeText"] == JStr(resumeText.value)
    ensures body.Keys <= {"jobDescription", "resume_id", "resumeText"}
  {
    body := map[];
    if jobDescription.Some? {
      body := body["jobDescription" := JStr(jobDescription.value)];
    }
    if TruthyText(resumeId) {
      body := body["resume_id" := JStr(resumeId.value)];
    }
    if TruthyText(resumeText) {
      body := body["resumeText" := JStr(resumeText.value)];
    }
  }

  /*************************************************************************
   * Response coercions
   *************************************************************************/

  /** `x ?? null` */
  function OrNull(o: Option<Json>): (r: Json)
    ensures Nullish(o) <==> r == JNull
    ensures !Nullish(o) ==> r == o.value
  {
    if Nullish(o) then JNull else o.value
  }

  /** `Array.isArray(x) ? x : []` */
  function ArrayOr(o: Option<Json>): (r: seq<Json>)
    ensures IsArray(o) ==> r == o.value.items
    ensures !IsArray(o) ==> r == []
  {
    if IsArray(o) then o.value.items else []
  }

  /** `o?.key` for a possibly missing or null value. */
  function PropOpt(o: Option<Json>, key: string): Option<Json> {
    if o.Some? then Prop(o.value, key) else None
  }

  datatype Changes = Changes(added: seq<Json>, removed: seq<Json>, reorganized: seq<Json>)

  datatype NewResumeResponse = NewResumeResponse(newResume: Json, changes: Changes, explanation: Json)

  /** `Array.isArray(json.changes?.k) ? json.changes.k : Array.isArray(json.k) ? json.k : []` */
  function ChangeList(json: Json, key: string): (r: seq<Json>)
    ensures IsArray(PropOpt(Prop(json, "changes"), key)) ==> r == PropOpt(Prop(json, "changes"), key).value.items
    ensures !IsArray(PropOpt(Prop(json, "changes"), key)) && IsArray(Prop(json, key)) ==> r == Prop(json, key).value.items
    ensures !IsArray(PropOpt(Prop(json, "changes"), key)) && !IsArray(Prop(json, key)) ==> r == []
  {
    var nested := PropOpt(Prop(json, "changes"), key);
    if IsArray(nested) then nested.value.items else ArrayOr(Prop(json, key))
  }

  /** The record `generateNewResume` returns for a parsed body. */
  function NewResumeOf(json: Json): (r: Outcome<NewResumeResponse>)
    ensures r.Err? <==> json.JNull?
    ensures r.Ok? ==> && (r.value.newResume == JNull <==> Nullish(Prop(json, "newResume")))
                      && (r.value.explanation == JNull <==> Nullish(Prop(json, "explanation")))
                      && (!Nullish(Prop(json, "newResume")) ==> r.value.newResume == Prop(json, "newResume").value)
                      && (!Nullish(Prop(json, "explanation")) ==> r.value.explanation == Prop(json, "explanation").value)
                      && r.value.changes == Changes(ChangeList(json, "added"), ChangeList(json, "removed"),
                                                    ChangeList(json, "reorganized"))
  {
    if json.JNull? then Err(NullBody)
    else
      Ok(NewResumeResponse(
        OrNull(Prop(json, "newResume")),
        Changes(ChangeList(json, "added"), ChangeList(json, "removed"), ChangeList(json, "reorganized")),
        OrNull(Prop(json, "explanation"))))
  }

  datatype OptimizeResponse = OptimizeResponse(
    optimizedResumeMarkdown: Json,
    originalScore: Option<int>,
    optimizedScore: Option<int>,
    strengths: seq<Json>,
    gaps: seq<Json>,
    behavioralAnalysis: Json)

  /** The record `generateOptimizedResume` returns for a parsed body: scores
      only when numeric, lists only when arrays. */
  function OptimizeOf(json: Json): (r: Outcome<OptimizeResponse>)
    ensures r.Err? <==> json.JNull?
    ensures r.Ok? ==> && (r.value.originalScore.Some? <==> Prop(json, "originalScore").Some? && Prop(json, "originalScore").value.JNum?)
                      && (r.value.optimizedScore.Some? <==> Prop(json, "optimizedScore").Some? && Prop(json, "optimizedScore").value.JNum?)
                      && (r.value.originalScore.Some? ==> Prop(json, "originalScore") == Some(JNum(r.value.originalScore.value)))
                      && (r.value.optimizedScore.Some? ==> Prop(json, "optimizedScore") == Some(JNum(r.value.optimizedScore.value)))
                      && r.value.strengths == ArrayOr(Prop(json, "strengths"))
                      && r.value.gaps == ArrayOr(Prop(json, "gaps"))
                      && (r.value.optimizedResumeMarkdown == JNull <==> Nullish(Prop(json, "optimizedResumeMarkdown")))
                      && (!Nullish(Prop(json, "optimizedResumeMarkdown"))
                          ==> r.value.optimizedResumeMarkdown == Prop(json, "optimizedResumeMarkdown").value)
                      && (r.value.behavioralAnalysis == JNull <==> Nullish(Prop(json, "behavioralAnalysis")))
                      && (!Nullish(Prop(json, "behavioralAnalysis"))
                          ==> r.value.behavioralAnalysis == Prop(json, "behavioralAnalysis").value)
  {
    if json.JNull? then Err(NullBody)
    else
      Ok(OptimizeResponse(
        OrNull(Prop(json, "optimizedResumeMarkdown")),
        NumberOf(Prop(json, "originalScore")),
        NumberOf(Prop(json, "optimizedScore")),
        ArrayOr(Prop(json, "strengths")),
        ArrayOr(Prop(json, "gaps")),
        OrNull(Prop(json, "behavioralAnalysis"))))
  }

  /** The body a backend sends for a response, under the keys the client
      reads. */
  function OptimizeResponseJson(resp: OptimizeResponse): Json {
    JObj(map[
      "optimizedResumeMarkdown" := resp.optimizedResumeMarkdown,
      "originalScore" := if resp.originalScore.Some? then JNum(resp.originalScore.value) else JNull,
      "optimizedScore" := if resp.optimizedScore.Some? then JNum(resp.optimizedScore.value) else JNull,
      "strengths" := JArr(resp.strengths),
      "gaps" := JArr(resp.gaps),
      "behavioralAnalysis" := resp.behavioralAnalysis])
  }

  /** Coercing the body of any response gives that response back. */
  lemma OptimizeRoundTrip(resp: OptimizeResponse)
    ensures OptimizeOf(OptimizeResponseJson(resp)) == Ok(resp)
  {
  }

  /** `{ coverLetterMarkdown: json.coverLetterMarkdown ?? null }` */
  function CoverLetterOf(json: Json): (r: Outcome<Json>)
    ensures r.Err? <==> json.JNull?
    ensures r.Ok? ==> (r.value == JNull <==> Nullish(Prop(json, "coverLetterMarkdown")))
    ensures r.Ok? && !Nullish(Prop(json, "coverLetterMarkdown")) ==> r.value == Prop(json, "coverLetterMarkdown").value
  {
    if json.JNull? then Err(NullBody) else Ok(OrNull(Prop(json, "coverLetterMarkdown")))
  }

  /** A body carrying a letter, or null, under its key gives that letter
      back. */
  lemma CoverLetterRoundTrip(letter: Json)
    ensures CoverLetterOf(JObj(map["coverLetterMarkdown" := letter])) == Ok(letter)
  {
  }

  datatype InterviewResponse = InterviewResponse(qa: seq<Json>, interviewerQuestions: seq<Json>)

  const QuestionAliases: seq<string> := ["interviewerQuestions", "questionsForRecruiter", "perguntasParaEntrevistador"]

  /** The first alias holding an array, or no questions. */
  function InterviewerQuestionsOf(json: Json, aliases: seq<string>): (r: seq<Json>)
    ensures (forall i :: 0 <= i < |aliases| ==> !IsArray(Prop(json, aliases[i]))) ==> r == []
    ensures forall i :: 0 <= i < |aliases| && IsArray(Prop(json, aliases[i]))
                        && (forall j :: 0 <= j < i ==> !IsArray(Prop(json, aliases[j])))
                        ==> r == Prop(json, aliases[i]).value.items
  {
    if aliases == [] then []
    else if IsArray(Prop(json, aliases[0])) then Prop(json, aliases[0]).value.items
    else
      var r := InterviewerQuestionsOf(json, aliases[1..]);
      assert forall i :: 1 <= i < |aliases| ==> aliases[1..][i - 1] == aliases[i];
      r
  }

  /** The tail of `simulateInterview`: the `let` reassigned in an if/else
      chain, then the returned record. */
  method InterviewOf(json: Json) returns (r: Outcome<InterviewResponse>)
    ensures r.Err? <==> json.JNull?
    ensures json.JNull? ==> r == Err(NullBody)
    ensures r.Ok? ==> r.value == InterviewResponse(ArrayOr(Prop(json, "qa")), InterviewerQuestionsOf(json, QuestionAliases))
  {
    if json.JNull? {
      return Err(NullBody);
    }
    var interviewerQuestions: seq<Json> := [];
    if IsArray(Prop(json, "interviewerQuestions")) {
      interviewerQuestions := Prop(json, "interviewerQuestions").value.items;
    } else if IsArray(Prop(json, "questionsForRecruiter")) {
      interviewerQuestions := Prop(json, "questionsForRecruiter").value.items;
    } else if IsArray(Prop(json, "perguntasParaEntrevistador")) {
      interviewerQuestions := Prop(json, "perguntasParaEntrevistador").value.items;
    }
    InterviewerAliasOrder(json);
    r := Ok(InterviewResponse(ArrayOr(Prop(json, "qa")), interviewerQuestions));
  }

  /** `interviewerQuestions` wins over the two other aliases, and
      `questionsForRecruiter` over `perguntasParaEntrevistador`. */
  lemma InterviewerAliasOrder(json: Json)
    ensures IsArray(Prop(json, "interviewerQuestions")) ==>
              InterviewerQuestionsOf(json, QuestionAliases) == Prop(json, "interviewerQuestions").value.items
    ensures !IsArray(Prop(json, "interviewerQuestions")) && IsArray(Prop(json, "questionsForRecruiter")) ==>
              InterviewerQuestionsOf(json, QuestionAliases) == Prop(json, "questionsForRecruiter").value.items
    ensures !IsArray(Prop(json, "interviewerQuestions")) && !IsArray(Prop(json, "questionsForRecruiter"))
            && IsArray(Prop(json, "perguntasParaEntrevistador")) ==>
              InterviewerQuestionsOf(json, QuestionAliases) == Prop(json, "perguntasParaEntrevistador").value.items
    ensures !IsArray(Prop(json, "interviewerQuestions")) && !IsArray(Prop(json, "questionsForRecruiter"))
            && !IsArray(Prop(json, "perguntasParaEntrevistador")) ==>
              InterviewerQuestionsOf(json, QuestionAliases) == []
  {
    assert QuestionAliases[0] == "interviewerQuestions";
    assert QuestionAliases[1] == "questionsForRecruiter";
    assert QuestionAliases[2] == "perguntasParaEntrevistador";
  }

  /*************************************************************************
   * The calls (api.ts:12-180)
   *************************************************************************/

  /** Continue with the parsed body when there is one. */
  function Then<T>(read: Outcome<Json>, coerce: Json -> Outcome<T>): (r: Outcome<T>)
    ensures read.Err? ==> r == Err(read.error)
    ensures read.Ok? ==> r == coerce(read.value)
  {
    if read.Err? then Err(read.error) else coerce(read.value)
  }

  /** `uploadResume`: the parsed body as is. */
  function UploadResume(reply: HttpReply): Outcome<Json> {
    ReadJsonOrDetails(reply, UploadFailed)
  }

  /** `generateResumeSummaryAPI`: the parsed body as is. */
  function GenerateResumeSummary(reply: HttpReply): Outcome<Json> {
    ReadJsonOrDetails(reply, SummaryFailed)
  }

  /** `generateNewResume`: the body sent and the outcome for the reply. */
  method GenerateNewResume(resumeId: string, resumeText: Option<string>, reply: HttpReply)
    returns (body: map<string, Json>, outcome: Outcome<NewResumeResponse>)
    ensures body.Keys <= {"resume_id", "resumeText"}
    ensures ("resume_id" in body <==> resumeId != "") && ("resumeText" in body <==> TruthyText(resumeText))
    ensures resumeId != "" ==> body["resume_id"] == JStr(resumeId)
    ensures TruthyText(resumeText) ==> body["resumeText"] == JStr(resumeText.value)
    ensures outcome == Then(ReadJson(reply, NewResumeFailed), NewResumeOf)
  {
    body := BuildRequestBody(None, Some(resumeId), resumeText);
    outcome := Then(ReadJson(reply, NewResumeFailed), NewResumeOf);
  }

  /** `generateOptimizedResume` */
  method GenerateOptimizedResume(resumeId: string, jobDescription: string, resumeText: Option<string>, reply: HttpReply)
    returns (body: map<string, Json>, outcome: Outcome<OptimizeResponse>)
    ensures "jobDescription" in body && body["jobDescription"] == JStr(jobDescription)
    ensures ("resume_id" in body <==> resumeId != "") && ("resumeText" in body <==> TruthyText(resumeText))
    ensures resumeId != "" ==> body["resume_id"] == JStr(resumeId)
    ensures TruthyText(resumeText) ==> body["resumeText"] == JStr(resumeText.value)
    ensures outcome == Then(ReadJson(reply, OptimizeFailed), OptimizeOf)
  {
    body := BuildRequestBody(Some(jobDescription), Some(resumeId), resumeText);
    outcome := Then(ReadJson(reply, OptimizeFailed), OptimizeOf);
  }

  /** `generateCoverLetter` */
  method GenerateCoverLetter(resumeId: string, jobDescription: string, resumeText: Option<string>, reply: HttpReply)
    returns (body: map<string, Json>, outcome: Outcome<Json>)
    ensures "jobDescription" in body && body["jobDescription"] == JStr(jobDescription)
    ensures ("resume_id" in body <==> resumeId != "") && ("resumeText" in body <==> TruthyText(resumeText))
    ensures resumeId != "" ==> body["resume_id"] == JStr(resumeId)
    ensures TruthyText(resumeText) ==> body["resumeText"] == JStr(resumeText.value)
    ensures outcome == Then(ReadJson(reply, CoverLetterFailed), CoverLetterOf)
  {
    body := BuildRequestBody(Some(jobDescription), Some(resumeId), resumeText);
    outcome := Then(ReadJson(reply, CoverLetterFailed), CoverLetterOf);
  }

  /** `simulateInterview`: `resumeId` may be null. */
  method SimulateInterview(resumeId: Option<string>, jobDescription: string, resumeText: Option<string>, reply: HttpReply)
    returns (body: map<string, Json>, outcome: Outcome<InterviewResponse>)
    ensures "jobDescription" in body && body["jobDescription"] == JStr(jobDescription)
    ensures ("resume_id" in body <==> TruthyText(resumeId)) && ("resumeText" in body <==> TruthyText(resumeText))
    ensures TruthyText(resumeId) ==> body["resume_id"] == JStr(resumeId.value)
    ensures TruthyText(resumeText) ==> body["resumeText"] == JStr(resumeText.value)
    ensures !reply.ok ==> outcome == Err(HttpError(InterviewFailed, reply.status))
    ensures reply.ok && reply.json.None? ==> outcome == Err(BodyNotJson)
    ensures reply.ok && reply.json == Some(JNull) ==> outcome == Err(NullBody)
    ensures reply.ok && reply.json.Some? && !reply.json.value.JNull? ==>
              outcome == Ok(InterviewResponse(ArrayOr(Prop(reply.json.value, "qa")),
                                              InterviewerQuestionsOf(reply.json.value, QuestionAliases)))
  {
    body := BuildRequestBody(Some(jobDescription), resumeId, resumeText);
    var read := ReadJson(reply, InterviewFailed);
    if read.Err? {
      return body, Err(read.error);
    }
    outcome := InterviewOf(read.value);
  }

  /** A non-ok status always rejects and no record is returned. The four
      endpoints that read the error body as text reject with their prefix
      and the status whatever the body; upload and summary do so only when
      the error body is JSON, and otherwise fail on reading the body twice. */
  lemma NonOkRejects(reply: HttpReply)
    requires !reply.ok
    ensures UploadResume(reply).Err? && GenerateResumeSummary(reply).Err?
    ensures reply.json.Some? ==> UploadResume(reply) == Err(HttpError(UploadFailed, reply.status))
    ensures reply.json.Some? ==> GenerateResumeSummary(reply) == Err(HttpError(SummaryFailed, reply.status))
    ensures reply.json.None? ==> UploadResume(reply) == Err(BodyUsed) && GenerateResumeSummary(reply) == Err(BodyUsed)
    ensures Then(ReadJson(reply, NewResumeFailed), NewResumeOf) == Err(HttpError(NewResumeFailed, reply.status))
    ensures Then(ReadJson(reply, OptimizeFailed), OptimizeOf) == Err(HttpError(OptimizeFailed, reply.status))
    ensures Then(ReadJson(reply, CoverLetterFailed), CoverLetterOf) == Err(HttpError(CoverLetterFailed, reply.status))
  {
  }

  /** A record returned by `generateNewResume` keeps the nested lists when
      they are arrays, and otherwise falls back to the top-level ones. */
  lemma NewResumeChanges(json: Json, added: seq<Json>)
    requires json.JObj? && "changes" in json.fields
    requires json.fields["changes"] == JObj(map["added" := JArr(added)])
    ensures NewResumeOf(json).Ok? && NewResumeOf(json).value.changes.added == added
    ensures NewResumeOf(json).value.changes.removed == ArrayOr(Prop(json, "removed"))
  {
    assert !IsArray(PropOpt(Prop(json, "changes"), "removed"));
  }
}
