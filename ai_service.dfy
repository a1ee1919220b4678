/** The five exported operations of ai-job-backend/src/services/aiService.js:
    their argument guards, the calls they make to the chat-completion client
    and, for the optimisation and the rewrite, the second attempt made when
    the first answer misses the 20-50 line contract.

    The client is a `ChatClient` object that answers from a script; each
    flow is specified by a pure function of that script (`OptimizeSpec`,
    `NewResumeSpec`) and the method that runs it is proved to agree with it. */
module AiService {
  import opened Wrappers
  import opened Text
  import opened JsonValue
  import opened AiParsing

  /** One chat-completion call: it returns a message whose `content` may be
      missing, or it throws. */
  datatype Reply = Completion(content: Option<string>) | Failure

  /** `response.choices?.[0]?.message?.content?.trim() ?? ""` */
  function ReplyText(r: Reply): (t: string)
    requires r.Completion?
    ensures r.content.Some? ==> t == Trim(r.content.value)
    ensures r.content.None? ==> t == ""
  {
    if r.content.Some? then Trim(r.content.value) else ""
  }

  /** The reply the client gives next: the head of the script, or a failed
      call once the script is exhausted. */
  function Next(script: seq<Reply>): Reply {
    if script == [] then Failure else script[0]
  }

  function Rest(script: seq<Reply>): seq<Reply> {
    if script == [] then [] else script[1..]
  }

  /** The Groq client. Its replies come from `script`; `sent` records every
      prompt it was given, in order. */
  class ChatClient {
    var script: seq<Reply>
    var sent: seq<string>

    constructor (replies: seq<Reply>)
      ensures script == replies && sent == []
    {
      script := replies;
      sent := [];
    }

    /** `groq.chat.completions.create(...)` with `prompt` as the only user
        message. */
    method Complete(prompt: string) returns (reply: Reply)
      modifies this
      ensures reply == Next(old(script)) && script == Rest(old(script))
      ensures sent == old(sent) + [prompt]
    {
      if script == [] {
        reply := Failure;
      } else {
        reply := script[0];
        script := script[1..];
      }
      sent := sent + [prompt];
    }
  }

  /** Two prompts sent one after the other. */
  lemma SentTwice(s: seq<string>, a: string, b: string)
    ensures s + [a] + [b] == s + [a, b]
  {
  }

  /*************************************************************************
   * Guards
   *************************************************************************/

  datatype Operation = Summary | Optimize | CoverLetter | NewResume | Interview

  datatype Reason = MissingResume | MissingJobDescription | NoClient

  /** What an operation does before it calls the model. */
  datatype Gate = Proceed | ReturnNull | Throw(reason: Reason)

  /** A result, `null`, or an error thrown to the caller. */
  datatype Outcome<T> = Value(v: T) | Null | Thrown(reason: Reason)

  predicate NeedsJob(op: Operation) {
    op == Optimize || op == CoverLetter || op == Interview
  }

  /** The guards in the order each operation checks them: a blank resume
      makes every operation but `generateNewResume` return null (that one
      throws), a blank job description makes the job-based ones throw, and
      a missing client makes all of them throw. */
  function Guard(op: Operation, resumeText: string, jobDescription: string, clientReady: bool): (g: Gate)
    ensures Blank(resumeText) && op != NewResume ==> g == ReturnNull
    ensures Blank(resumeText) && op == NewResume ==> g == Throw(MissingResume)
  {
    if Blank(resumeText) then (if op == NewResume then Throw(MissingResume) else ReturnNull)
    else if NeedsJob(op) && Blank(jobDescription) then Throw(MissingJobDescription)
    else if !clientReady then Throw(NoClient)
    else Proceed
  }

  /** The model is consulted exactly when every input an operation needs is
      present and the client exists; only a missing resume yields null. */
  lemma GuardProceedIff(op: Operation, resumeText: string, jobDescription: string, clientReady: bool)
    ensures Guard(op, resumeText, jobDescription, clientReady) == Proceed
            <==> !Blank(resumeText) && (NeedsJob(op) ==> !Blank(jobDescription)) && clientReady
    ensures Guard(op, resumeText, jobDescription, clientReady) == ReturnNull
            <==> Blank(resumeText) && op != NewResume
    ensures Guard(op, resumeText, jobDescription, clientReady) == Throw(MissingJobDescription)
            <==> !Blank(resumeText) && NeedsJob(op) && Blank(jobDescription)
  {
  }

  function GateOutcome<T>(g: Gate): Outcome<T>
    requires !g.Proceed?
  {
    if g.ReturnNull? then Null else Thrown(g.reason)
  }

  /** `extra ? base + "\n\n" + extra : base` */
  function FullPrompt(base: string, extra: string): (p: string)
    ensures extra == "" ==> p == base
    ensures extra != "" ==> StartsWith(p, base) && EndsWith(p, extra)
  {
    if extra != "" then base + "\n\n" + extra else base
  }

  /*************************************************************************
   * generateResumeSummary and generateCoverLetter (single call)
   *************************************************************************/

  /** `content?.trim() ?? null`, and null when the call throws. */
  function TextOrNull(r: Reply): Outcome<string> {
    if r.Completion? && r.content.Some? then Value(Trim(r.content.value)) else Null
  }

  /** generateResumeSummary (aiService.js:20-108). */
  method GenerateResumeSummary(client: ChatClient?, resumeText: string, prompt: string) returns (out: Outcome<string>)
    modifies client
    ensures var g := Guard(Summary, resumeText, "", client != null);
            !g.Proceed? ==> out == GateOutcome(g) && (client != null ==> unchanged(client))
    ensures Guard(Summary, resumeText, "", client != null).Proceed? ==>
              client != null && out == TextOrNull(Next(old(client.script)))
              && client.script == Rest(old(client.script)) && client.sent == old(client.sent) + [prompt]
  {
    if Blank(resumeText) {
      return Null;
    }
    if client == null {
      return Thrown(NoClient);
    }
    var reply := client.Complete(prompt);
    out := TextOrNull(reply);
  }

  /** generateCoverLetter (aiService.js:410-461). */
  method GenerateCoverLetter(client: ChatClient?, resumeText: string, jobDescription: string, prompt: string)
    returns (out: Outcome<string>)
    modifies client
    ensures var g := Guard(CoverLetter, resumeText, jobDescription, client != null);
            !g.Proceed? ==> out == GateOutcome(g) && (client != null ==> unchanged(client))
    ensures Guard(CoverLetter, resumeText, jobDescription, client != null).Proceed? ==>
              client != null && out == TextOrNull(Next(old(client.script)))
              && client.script == Rest(old(client.script)) && client.sent == old(client.sent) + [prompt]
  {
    if Blank(resumeText) {
      return Null;
    }
    if Blank(jobDescription) {
      return Thrown(MissingJobDescription);
    }
    if client == null {
      return Thrown(NoClient);
    }
    var reply := client.Complete(prompt);
    out := TextOrNull(reply);
  }

  /** A summary or a cover letter is either null or a trimmed text. */
  lemma TextOrNullTrimmed(r: Reply)
    ensures TextOrNull(r).Value? ==> Trimmed(TextOrNull(r).v)
    ensures TextOrNull(r).Null? <==> r.Failure? || r.content.None?
  {
    if TextOrNull(r).Value? {
      TrimIdempotent(r.content.value);
    }
  }

  /** What `runRequest` yields for a reply: the trimmed text, or `None`
      when the call throws. */
  function RequestText(r: Reply): (t: Option<string>)
    ensures t.None? <==> r.Failure?
    ensures t.Some? ==> t.value == ReplyText(r)
  {
    if r.Failure? then None else Some(ReplyText(r))
  }

  /** The `runRequest` closure of generateOptimizedResume and
      generateNewResume: one call with the base prompt, extended by the
      extra instruction when there is one. */
  method RunRequest(client: ChatClient, basePrompt: string, extra: string) returns (textOut: Option<string>)
    modifies client
    ensures textOut == RequestText(Next(old(client.script)))
    ensures client.script == Rest(old(client.script))
    ensures client.sent == old(client.sent) + [FullPrompt(basePrompt, extra)]
  {
    var reply := client.Complete(FullPrompt(basePrompt, extra));
    if reply.Failure? {
      return None;
    }
    return Some(ReplyText(reply));
  }

  /*************************************************************************
   * generateOptimizedResume (aiService.js:115-405)
   *************************************************************************/

  /** The last-resort record when the first answer has no resume text: the
      raw model text (or null when empty) with the other parsed fields. */
  function RawTextFallback(textOut: string, n: OptimizeResult): (r: OptimizeResult)
    ensures r.optimizedResume == (if textOut == "" then JNull else JStr(textOut))
    ensures r.(optimizedResume := n.optimizedResume) == n
  {
    n.(optimizedResume := if textOut == "" then JNull else JStr(textOut))
  }

  /** Both scores rounded and clamped to 0..100. */
  function ClampScores(n: OptimizeResult): (r: OptimizeResult)
    ensures r.originalScore == ClampScore(n.originalScore) && r.optimizedScore == ClampScore(n.optimizedScore)
    ensures r.(originalScore := n.originalScore, optimizedScore := n.optimizedScore) == n
  {
    n.(originalScore := ClampScore(n.originalScore), optimizedScore := ClampScore(n.optimizedScore))
  }

  /** The normalised record of one answer text: `parseJsonFromText`
      followed by `normalizeParsed`. */
  function OptimizeOfText(textOut: string, parse: Parser): OptimizeResult {
    NormalizeOptimize(ParseJsonFromText(textOut, parse))
  }

  function OptimizeOf(r: Reply, parse: Parser): OptimizeResult
    requires r.Completion?
  {
    OptimizeOfText(ReplyText(r), parse)
  }

  /** The second attempt is used when its resume text is a non-empty
      string; a text of another type makes `countLines` throw, which the
      inner `catch` swallows. */
  predicate UsableText(textOut: string, parse: Parser) {
    OptimizeOfText(textOut, parse).optimizedResume.JStr? && Truthy(OptimizeOfText(textOut, parse).optimizedResume)
  }

  predicate SecondUsable(r: Reply, parse: Parser) {
    r.Completion? && UsableText(ReplyText(r), parse)
  }

  /** What the inner `try` of the second attempt returns: the second record
      when the call answered with a usable resume text, nothing otherwise. */
  function SecondOptimize(t2: Option<string>, parse: Parser): (r: Option<OptimizeResult>)
    ensures r.Some? <==> t2.Some? && UsableText(t2.value, parse)
    ensures r.Some? ==> r.value == OptimizeOfText(t2.value, parse)
  {
    if t2.Some? && UsableText(t2.value, parse) then Some(OptimizeOfText(t2.value, parse)) else None
  }

  /** The second attempt of generateOptimizedResume (aiService.js:340-356):
      the call with the reinforced instruction, its parse, and the two early
      returns; a throw is swallowed. */
  method RetryOptimized(client: ChatClient, basePrompt: string, extra: string, parse: Parser)
    returns (better: Option<OptimizeResult>)
    modifies client
    ensures better == SecondOptimize(RequestText(Next(old(client.script))), parse)
    ensures client.script == Rest(old(client.script))
    ensures client.sent == old(client.sent) + [FullPrompt(basePrompt, extra)]
  {
    var textOut2 := RunRequest(client, basePrompt, extra);
    if textOut2.Some? {
      var normalized2 := OptimizeOfText(textOut2.value, parse);
      var lines2 := JsCountLines(normalized2.optimizedResume);
      if lines2.Some? {
        if WithinLineBounds(normalized2.optimizedResume, lines2.value) {
          return Some(normalized2);
        }
        if Truthy(normalized2.optimizedResume) {
          return Some(normalized2);
        }
      }
    }
    return None;
  }

  /** The record generateOptimizedResume returns when its first request
      answers `t1` and its second (if made) answers `t2`, `None` standing
      for a call that throws; with the number of calls made. */
  function OptimizeFlow(t1: Option<string>, t2: Option<string>, parse: Parser): (res: (OptimizeResult, nat))
    ensures 1 <= res.1 <= 2
  {
    if t1.None? then (EmptyOptimize, 1)
    else
      var n1 := OptimizeOfText(t1.value, parse);
      match JsCountLines(n1.optimizedResume)
      case None => (EmptyOptimize, 1)
      case Some(lines) =>
        if WithinLineBounds(n1.optimizedResume, lines) then (n1, 1)
        else if SecondOptimize(t2, parse).Some? then (SecondOptimize(t2, parse).value, 2)
        else if !Truthy(n1.optimizedResume) then (RawTextFallback(t1.value, n1), 2)
        else (ClampScores(n1), 2)
  }

  /** The same record for the replies in `script`. */
  function OptimizeSpec(script: seq<Reply>, parse: Parser): (res: (OptimizeResult, nat))
    ensures 1 <= res.1 <= 2
  {
    OptimizeFlow(RequestText(Next(script)), RequestText(Next(Rest(script))), parse)
  }

  /** The prompts generateOptimizedResume sends for `script`. */
  function OptimizePrompts(script: seq<Reply>, parse: Parser, basePrompt: string, extra: string): seq<string> {
    if OptimizeSpec(script, parse).1 == 1 then [basePrompt] else [basePrompt, FullPrompt(basePrompt, extra)]
  }

  /** generateOptimizedResume, statement by statement. */
  method GenerateOptimizedResume(client: ChatClient?, resumeText: string, jobDescription: string,
                                 basePrompt: string, extra: string, parse: Parser)
    returns (out: Outcome<OptimizeResult>)
    requires extra != ""
    modifies client
    ensures var g := Guard(Optimize, resumeText, jobDescription, client != null);
            !g.Proceed? ==> out == GateOutcome(g) && (client != null ==> unchanged(client))
    ensures Guard(Optimize, resumeText, jobDescription, client != null).Proceed? ==>
              client != null
              && out == Value(OptimizeSpec(old(client.script), parse).0)
              && client.sent == old(client.sent) + OptimizePrompts(old(client.script), parse, basePrompt, extra)
              && client.script == (if OptimizeSpec(old(client.script), parse).1 == 1 then Rest(old(client.script))
                                   else Rest(Rest(old(client.script))))
  {
    if Blank(resumeText) {
      return Null;
    }
    if Blank(jobDescription) {
      return Thrown(MissingJobDescription);
    }
    if client == null {
      return Thrown(NoClient);
    }
    assert Guard(Optimize, resumeText, jobDescription, client != null) == Proceed;
    ghost var sent0 := client.sent;
    ghost var t1 := RequestText(Next(client.script));
    ghost var t2 := RequestText(Next(Rest(client.script)));
    assert OptimizeSpec(client.script, parse) == OptimizeFlow(t1, t2, parse);
    var textOut := RunRequest(client, basePrompt, "");
    if textOut.None? {
      return Value(EmptyOptimize);
    }
    var normalized := OptimizeOfText(textOut.value, parse);
    var lines := JsCountLines(normalized.optimizedResume);
    if lines.None? {
      return Value(EmptyOptimize);
    }
    if !WithinLineBounds(normalized.optimizedResume, lines.value) {
      var better := RetryOptimized(client, basePrompt, extra, parse);
      SentTwice(sent0, basePrompt, FullPrompt(basePrompt, extra));
      if better.Some? {
        return Value(better.value);
      }
    }
    if WithinLineBounds(normalized.optimizedResume, lines.value) {
      return Value(normalized);
    }
    if !Truthy(normalized.optimizedResume) {
      return Value(RawTextFallback(textOut.value, normalized));
    }
    normalized := normalized.(originalScore := ClampScore(normalized.originalScore));
    normalized := normalized.(optimizedScore := ClampScore(normalized.optimizedScore));
    return Value(normalized);
  }

  /** The second call is made exactly when the first answer arrived, its
      line count could be taken, and it misses the length contract. */
  lemma OptimizeRetriesIff(script: seq<Reply>, parse: Parser)
    ensures OptimizeSpec(script, parse).1 == 2 <==>
            Next(script).Completion?
            && JsCountLines(OptimizeOf(Next(script), parse).optimizedResume).Some?
            && !WithinLineBounds(OptimizeOf(Next(script), parse).optimizedResume,
                                 JsCountLines(OptimizeOf(Next(script), parse).optimizedResume).value)
  {
  }

  /** A first answer within the contract is returned as it is, after one
      call. */
  lemma OptimizeAcceptsFirst(script: seq<Reply>, parse: Parser)
    requires Next(script).Completion?
    requires OptimizeOf(Next(script), parse).optimizedResume.JStr?
    requires WithinLineBounds(OptimizeOf(Next(script), parse).optimizedResume,
                              CountLines(OptimizeOf(Next(script), parse).optimizedResume.s))
    ensures OptimizeSpec(script, parse) == (OptimizeOf(Next(script), parse), 1)
  {
  }

  /** After a retry, a usable second answer wins, whether or not it is
      within the contract itself. */
  lemma OptimizeSecondWins(script: seq<Reply>, parse: Parser)
    requires OptimizeSpec(script, parse).1 == 2
    requires SecondUsable(Next(Rest(script)), parse)
    ensures OptimizeSpec(script, parse).0 == OptimizeOf(Next(Rest(script)), parse)
  {
    var t1 := RequestText(Next(script));
    var t2 := RequestText(Next(Rest(script)));
    assert OptimizeSpec(script, parse) == OptimizeFlow(t1, t2, parse);
    assert SecondOptimize(t2, parse) == Some(OptimizeOf(Next(Rest(script)), parse));
    OptimizeFlowSecond(t1, t2, parse);
  }

  /** On a retry, the second record is returned when there is one. */
  lemma OptimizeFlowSecond(t1: Option<string>, t2: Option<string>, parse: Parser)
    requires OptimizeFlow(t1, t2, parse).1 == 2 && SecondOptimize(t2, parse).Some?
    ensures OptimizeFlow(t1, t2, parse).0 == SecondOptimize(t2, parse).value
  {
  }

  /** When neither answer is usable, a first answer without resume text
      falls back to the raw model text, and one with a text out of bounds
      is kept with its scores clamped to 0..100. */
  lemma OptimizeFallbacks(script: seq<Reply>, parse: Parser)
    requires OptimizeSpec(script, parse).1 == 2
    requires !SecondUsable(Next(Rest(script)), parse)
    ensures var n1 := OptimizeOf(Next(script), parse);
            var r := OptimizeSpec(script, parse).0;
            && (!Truthy(n1.optimizedResume) ==> r == RawTextFallback(ReplyText(Next(script)), n1))
            && (Truthy(n1.optimizedResume) ==> r == ClampScores(n1))
            && (Truthy(n1.optimizedResume) ==>
                  (&& r.optimizedResume == n1.optimizedResume
                   && (r.originalScore.Some? ==> 0 <= r.originalScore.value <= 100)
                   && (r.optimizedScore.Some? ==> 0 <= r.optimizedScore.value <= 100)))
  {
  }

  /** A failed first call, or a resume field of a type `countLines` cannot
      split, yields the all-empty record after one call. */
  lemma OptimizeEmptyOnError(script: seq<Reply>, parse: Parser)
    requires Next(script).Failure? || JsCountLines(OptimizeOf(Next(script), parse).optimizedResume).None?
    ensures OptimizeSpec(script, parse) == (EmptyOptimize, 1)
  {
  }

  /*************************************************************************
   * generateNewResume (aiService.js:466-681)
   *************************************************************************/

  /** The record of one answer text: `parseJsonFromText` followed by
      `normalizeParsed`. */
  function NewResumeOfText(textOut: string, parse: Parser): NewResumeResult {
    NormalizeNewResume(ParseJsonFromText(textOut, parse))
  }

  function NewResumeOf(r: Reply, parse: Parser): NewResumeResult
    requires r.Completion?
  {
    NewResumeOfText(ReplyText(r), parse)
  }

  /** The rewritten resume is present and has 20 to 50 non-blank lines. */
  predicate NewResumeAcceptable(n: NewResumeResult) {
    n.newResume.Some? && 20 <= CountLines(n.newResume.value) <= 50
  }

  /** What the inner `try` of the second attempt returns: the second record
      when the call answered with a resume text, nothing otherwise. */
  function SecondNewResume(t2: Option<string>, parse: Parser): (r: Option<NewResumeResult>)
    ensures r.Some? <==> t2.Some? && NewResumeOfText(t2.value, parse).newResume.Some?
    ensures r.Some? ==> r.value == NewResumeOfText(t2.value, parse)
  {
    if t2.Some? && NewResumeOfText(t2.value, parse).newResume.Some? then Some(NewResumeOfText(t2.value, parse)) else None
  }

  /** The second attempt of generateNewResume (aiService.js:657-676). */
  method RetryNewResume(client: ChatClient, basePrompt: string, extra: string, parse: Parser)
    returns (better: Option<NewResumeResult>)
    modifies client
    ensures better == SecondNewResume(RequestText(Next(old(client.script))), parse)
    ensures client.script == Rest(old(client.script))
    ensures client.sent == old(client.sent) + [FullPrompt(basePrompt, extra)]
  {
    var textOut2 := RunRequest(client, basePrompt, extra);
    if textOut2.Some? {
      var normalized2 := NewResumeOfText(textOut2.value, parse);
      var lines2 := CountLines(normalized2.newResume.GetOr(""));
      if normalized2.newResume.Some? && 20 <= lines2 <= 50 {
        return Some(normalized2);
      }
      if normalized2.newResume.Some? {
        return Some(normalized2);
      }
    }
    return None;
  }

  /** The record generateNewResume returns when its first request answers
      `t1` and its second (if made) answers `t2`, `None` standing for a call
      that throws; with the number of calls made. */
  function NewResumeFlow(t1: Option<string>, t2: Option<string>, parse: Parser): (res: (NewResumeResult, nat))
    ensures 1 <= res.1 <= 2
  {
    if t1.None? then (EmptyNewResume, 1)
    else
      var n1 := NewResumeOfText(t1.value, parse);
      if NewResumeAcceptable(n1) then (n1, 1)
      else if SecondNewResume(t2, parse).Some? then (SecondNewResume(t2, parse).value, 2)
      else (n1, 2)
  }

  /** The same record for the replies in `script`. */
  function NewResumeSpec(script: seq<Reply>, parse: Parser): (res: (NewResumeResult, nat))
    ensures 1 <= res.1 <= 2
  {
    NewResumeFlow(RequestText(Next(script)), RequestText(Next(Rest(script))), parse)
  }

  /** generateNewResume, statement by statement. */
  method GenerateNewResume(client: ChatClient?, resumeText: string, basePrompt: string, extra: string, parse: Parser)
    returns (out: Outcome<NewResumeResult>)
    requires extra != ""
    modifies client
    ensures var g := Guard(NewResume, resumeText, "", client != null);
            !g.Proceed? ==> out == GateOutcome(g) && (client != null ==> unchanged(client))
    ensures Guard(NewResume, resumeText, "", client != null).Proceed? ==>
              client != null
              && out == Value(NewResumeSpec(old(client.script), parse).0)
              && client.sent == old(client.sent)
                   + (if NewResumeSpec(old(client.script), parse).1 == 1 then [basePrompt]
                      else [basePrompt, FullPrompt(basePrompt, extra)])
              && client.script == (if NewResumeSpec(old(client.script), parse).1 == 1 then Rest(old(client.script))
                                   else Rest(Rest(old(client.script))))
  {
    if Blank(resumeText) {
      return Thrown(MissingResume);
    }
    if client == null {
      return Thrown(NoClient);
    }
    assert Guard(NewResume, resumeText, "", client != null) == Proceed;
    ghost var sent0 := client.sent;
    ghost var t1 := RequestText(Next(client.script));
    ghost var t2 := RequestText(Next(Rest(client.script)));
    assert NewResumeSpec(client.script, parse) == NewResumeFlow(t1, t2, parse);
    var textOut := RunRequest(client, basePrompt, "");
    if textOut.None? {
      return Value(EmptyNewResume);
    }
    var normalized := NewResumeOfText(textOut.value, parse);
    var lines := CountLines(normalized.newResume.GetOr(""));
    if normalized.newResume.None? || lines < 20 || lines > 50 {
      assert !NewResumeAcceptable(normalized);
      var better := RetryNewResume(client, basePrompt, extra, parse);
      SentTwice(sent0, basePrompt, FullPrompt(basePrompt, extra));
      if better.Some? {
        return Value(better.value);
      }
      assert NewResumeFlow(t1, t2, parse) == (normalized, 2);
    } else {
      assert NewResumeAcceptable(normalized);
    }
    return Value(normalized);
  }

  /** The rewrite retries exactly when the first answer arrived and is not
      acceptable; a second answer with a resume wins, otherwise the first
      record stands. */
  lemma NewResumeRetry(script: seq<Reply>, parse: Parser)
    ensures NewResumeSpec(script, parse).1 == 2 <==> Next(script).Completion? && !NewResumeAcceptable(NewResumeOf(Next(script), parse))
    ensures NewResumeSpec(script, parse).1 == 2 && Next(Rest(script)).Completion? && NewResumeOf(Next(Rest(script)), parse).newResume.Some?
            ==> NewResumeSpec(script, parse).0 == NewResumeOf(Next(Rest(script)), parse)
    ensures NewResumeSpec(script, parse).1 == 2 && (Next(Rest(script)).Failure? || NewResumeOf(Next(Rest(script)), parse).newResume.None?)
            ==> NewResumeSpec(script, parse).0 == NewResumeOf(Next(script), parse)
  {
  }

  /** Whatever the replies, the resume and explanation returned are either
      absent or trimmed non-empty texts. */
  lemma NewResumeTextsTrimmed(script: seq<Reply>, parse: Parser)
    ensures var r := NewResumeSpec(script, parse).0;
            (r.newResume.Some? ==> r.newResume.value != "" && Trimmed(r.newResume.value))
            && (r.explanation.Some? ==> r.explanation.value != "" && Trimmed(r.explanation.value))
  {
    var t1 := RequestText(Next(script));
    var t2 := RequestText(Next(Rest(script)));
    assert NewResumeSpec(script, parse) == NewResumeFlow(t1, t2, parse);
    NewResumeFlowTrimmed(t1, t2, parse);
  }

  /** The records the flow can return are the empty one and the two parsed
      answers, and each keeps its texts trimmed. */
  lemma NewResumeFlowTrimmed(t1: Option<string>, t2: Option<string>, parse: Parser)
    ensures TrimmedText(NewResumeFlow(t1, t2, parse).0.newResume)
    ensures TrimmedText(NewResumeFlow(t1, t2, parse).0.explanation)
  {
    if t1.Some? {
      var n1 := NewResumeOfText(t1.value, parse);
      assert TrimmedText(n1.newResume) && TrimmedText(n1.explanation);
      if t2.Some? {
        var n2 := NewResumeOfText(t2.value, parse);
        assert TrimmedText(n2.newResume) && TrimmedText(n2.explanation);
      }
    }
  }

  /** An absent text, or a trimmed non-empty one. */
  predicate TrimmedText(o: Option<string>) {
    o.Some? ==> o.value != "" && Trimmed(o.value)
  }

  /*************************************************************************
   * simulateInterview (aiService.js:686-811)
   *************************************************************************/

  /** The interview record for one reply: empty when the call throws. */
  function InterviewOf(r: Reply, parse: Parser): InterviewResult {
    if r.Failure? then EmptyInterview else ParseInterview(ReplyText(r), parse)
  }

  /** simulateInterview: one call, then the tolerant parse. */
  method SimulateInterview(client: ChatClient?, resumeText: string, jobDescription: string, prompt: string, parse: Parser)
    returns (out: Outcome<InterviewResult>)
    modifies client
    ensures var g := Guard(Interview, resumeText, jobDescription, client != null);
            !g.Proceed? ==> out == GateOutcome(g) && (client != null ==> unchanged(client))
    ensures Guard(Interview, resumeText, jobDescription, client != null).Proceed? ==>
              client != null && out == Value(InterviewOf(Next(old(client.script)), parse))
              && client.script == Rest(old(client.script)) && client.sent == old(client.sent) + [prompt]
  {
    if Blank(resumeText) {
      return Null;
    }
    if Blank(jobDescription) {
      return Thrown(MissingJobDescription);
    }
    if client == null {
      return Thrown(NoClient);
    }
    var reply := client.Complete(prompt);
    if reply.Failure? {
      return Value(EmptyInterview);
    }
    var textOut := ReplyText(reply);
    out := Value(ParseInterview(textOut, parse));
  }

  /** Every kept question-answer pair has both sides filled; a reply that is
      not JSON gives the fixed three questions and three recruiter
      questions; a failed call gives no questions at all. */
  lemma InterviewShape(r: Reply, parse: Parser)
    ensures forall k :: 0 <= k < |InterviewOf(r, parse).qa| ==>
              InterviewOf(r, parse).qa[k].question != "" && InterviewOf(r, parse).qa[k].answer != ""
    ensures r.Completion? && parse(Trim(StripFirstFence(ReplyText(r)))).None? ==>
              |InterviewOf(r, parse).qa| == 3 && |InterviewOf(r, parse).interviewerQuestions| == 3
    ensures r.Failure? ==> InterviewOf(r, parse) == EmptyInterview
  {
  }
}
