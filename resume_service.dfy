/** The line and number extractors and the two rule-based services of
    ai-job-backend/ai-python-service/services.py built on the helpers:
    `_extract_experience_lines`, `_extract_years_experience`, the
    programmatic fallback of `summarize_resume` and `simulate_interview`.
    The regular expressions are written out as predicates on positions. */
module ResumeService {
  import opened Wrappers
  import opened Text
  import opened ResumeHelpers

  predicate IsDigit(c: char) {
    '0' <= c <= '9'
  }

  /*************************************************************************
   * _extract_experience_lines (services.py:148-157)
   *************************************************************************/

  /** `20\d{2}` at `i` */
  predicate YearAt(s: string, i: int) {
    0 <= i && i + 4 <= |s| && s[i] == '2' && s[i + 1] == '0' && IsDigit(s[i + 2]) && IsDigit(s[i + 3])
  }

  /** `[–\-−]`: en dash, hyphen-minus or minus sign. */
  predicate IsDash(c: char) {
    c == '–' || c == '-' || c == '−'
  }

  /** `\s*:` at `k`. Whitespace is taken greedily; `:` is not whitespace, so
      no other split of the run can match. */
  predicate ColonAfterWs(s: string, k: int) {
    0 <= k <= |s| && k + LeadingWs(s[k..]) < |s| && s[k + LeadingWs(s[k..])] == ':'
  }

  /** `20\d{2}[–\-−]\s*(presente|20\d{2})\s*:` matches at `i`. Both
      alternatives start with a non-whitespace character, so `\s*` takes
      the whole whitespace run after the dash. */
  predicate ExperienceAt(s: string, i: int) {
    && YearAt(s, i) && i + 4 < |s| && IsDash(s[i + 4])
    && var j := i + 5 + LeadingWs(s[i + 5..]);
       || (OccursAt(s, "presente", j) && ColonAfterWs(s, j + 8))
       || (YearAt(s, j) && ColonAfterWs(s, j + 4))
  }

  /** `re.search` of the period pattern on the line. */
  predicate HasPeriod(line: string) {
    exists i :: 0 <= i < |line| && ExperienceAt(line, i)
  }

  /** The stripped lines holding a period, in line order. */
  function PeriodLines(lines: seq<string>): (r: seq<string>)
    ensures forall k :: 0 <= k < |r| ==> HasPeriod(r[k]) && Trimmed(r[k])
    decreases |lines|
  {
    if lines == [] then []
    else
      var line := Trim(lines[|lines| - 1]);
      TrimIdempotent(lines[|lines| - 1]);
      PeriodLines(lines[..|lines| - 1]) + (if HasPeriod(line) then [line] else [])
  }

  /** Some line of `lines` strips to `x`, which holds a period. */
  ghost predicate PeriodLineOf(lines: seq<string>, x: string) {
    exists m :: 0 <= m < |lines| && Trim(lines[m]) == x && HasPeriod(x)
  }

  /** A line is reported exactly when its stripped form holds a period. */
  lemma {:induction false} PeriodLinesMembers(lines: seq<string>)
    ensures forall x :: x in PeriodLines(lines) <==> PeriodLineOf(lines, x)
    decreases |lines|
  {
    if lines != [] {
      var n := |lines| - 1;
      var init := lines[..n];
      var last := Trim(lines[n]);
      PeriodLinesMembers(init);
      assert PeriodLines(lines) == PeriodLines(init) + (if HasPeriod(last) then [last] else []);
      forall x ensures x in PeriodLines(lines) <==> PeriodLineOf(lines, x) {
        if PeriodLineOf(init, x) {
          var m :| 0 <= m < |init| && Trim(init[m]) == x && HasPeriod(x);
          assert lines[m] == init[m];
          assert PeriodLineOf(lines, x);
        }
        if PeriodLineOf(lines, x) {
          var m :| 0 <= m < |lines| && Trim(lines[m]) == x && HasPeriod(x);
          if m < n {
            assert lines[m] == init[m];
            assert PeriodLineOf(init, x);
          } else {
            assert m == n;
          }
        }
        if HasPeriod(last) && x == last {
          assert PeriodLineOf(lines, x);
        }
      }
    }
  }

  /** `_extract_experience_lines`, loop by loop. */
  method ExtractExperienceLines(text: string) returns (experiences: seq<string>)
    ensures experiences == PeriodLines(Split(text, '\n'))
  {
    var lines := Split(text, '\n');
    experiences := [];
    for i := 0 to |lines|
      invariant experiences == PeriodLines(lines[..i])
    {
      assert lines[..i + 1][..i] == lines[..i];
      var line := Trim(lines[i]);
      if HasPeriod(line) {
        experiences := experiences + [line];
      }
    }
    assert lines[..|lines|] == lines;
  }

  /** A line that starts with a period such as "2019-2021:" or
      "2020–presente :" holds one. */
  lemma PeriodAtStart(y1: string, dash: char, w: string, y2: string, w2: string, rest: string)
    requires |y1| == 4 && YearAt(y1, 0) && IsDash(dash) && AllWs(w) && AllWs(w2)
    requires y2 == "presente" || (|y2| == 4 && YearAt(y2, 0))
    ensures HasPeriod(y1 + [dash] + w + y2 + w2 + ":" + rest)
  {
    var after := y2 + (w2 + (":" + rest));
    var line := y1 + [dash] + (w + after);
    assert line == y1 + [dash] + w + y2 + w2 + ":" + rest;
    assert line[..4] == y1 && line[4] == dash;
    assert line[5..] == w + after;
    assert after[0] == y2[0];
    LeadingWsOf(w, after);
    var j := 5 + |w|;
    assert line[j..] == after;
    PeriodEnd(line, j, y2, w2, rest);
    assert ExperienceAt(line, 0);
  }

  /** What follows the dash and its whitespace: "presente" or a year, then
      whitespace and a colon. */
  lemma PeriodEnd(line: string, j: nat, y2: string, w2: string, rest: string)
    requires j <= |line| && line[j..] == y2 + (w2 + (":" + rest)) && AllWs(w2)
    requires y2 == "presente" || (|y2| == 4 && YearAt(y2, 0))
    ensures || (OccursAt(line, "presente", j) && ColonAfterWs(line, j + 8))
            || (YearAt(line, j) && ColonAfterWs(line, j + 4))
  {
    assert line[j..j + |y2|] == y2;
    assert line[j + |y2|..] == w2 + (":" + rest);
    ColonAfter(line, j + |y2|, w2, rest);
  }

  lemma ColonAfter(line: string, k: nat, w: string, rest: string)
    requires k <= |line| && line[k..] == w + (":" + rest) && AllWs(w)
    ensures ColonAfterWs(line, k)
  {
    LeadingWsOf(w, ":" + rest);
    assert line[k + |w|] == (w + (":" + rest))[|w|];
  }

  /** Leading whitespace stops at the first character that is not. */
  lemma {:induction false} LeadingWsOf(w: string, s: string)
    requires AllWs(w) && s != [] && !IsWs(s[0])
    ensures LeadingWs(w + s) == |w|
    decreases |w|
  {
    if w != [] {
      assert (w + s)[1..] == w[1..] + s;
      LeadingWsOf(w[1..], s);
    } else {
      assert w + s == s;
    }
  }

  /*************************************************************************
   * _extract_years_experience (services.py:144-146)
   *************************************************************************/

  /** Length of the run of ASCII digits that starts `s`. */
  function DigitRun(s: string): (n: nat)
    ensures n <= |s|
    ensures forall k :: 0 <= k < n ==> IsDigit(s[k])
    ensures n < |s| ==> !IsDigit(s[n])
  {
    if |s| > 0 && IsDigit(s[0]) then 1 + DigitRun(s[1..]) else 0
  }

  /** `(\d+)\s*(anos|anos de|year|years)` matches at `i`, ignoring case. The
      digits are the whole run from `i` (a shorter group would leave a digit
      where whitespace or a letter is needed), and the later alternatives
      only extend "anos" and "year", so the first two decide. */
  predicate YearsAt(s: string, i: int) {
    && 0 <= i < |s| && IsDigit(s[i])
    && var e := i + DigitRun(s[i..]);
       var m := e + LeadingWs(s[e..]);
       StartsWith(Lower(s[m..]), "anos") || StartsWith(Lower(s[m..]), "year")
  }

  /** The leftmost match position at or after `k`. */
  function YearsFrom(s: string, k: nat): (r: Option<nat>)
    ensures r.Some? ==> k <= r.value && YearsAt(s, r.value)
    ensures r.Some? ==> forall m :: k <= m < r.value ==> !YearsAt(s, m)
    ensures r.None? ==> forall m :: k <= m ==> !YearsAt(s, m)
    decreases |s| - k
  {
    if k >= |s| then None
    else if YearsAt(s, k) then Some(k)
    else YearsFrom(s, k + 1)
  }

  /** A match at `i` and none before it. */
  ghost predicate LeftmostYears(s: string, i: int) {
    YearsAt(s, i) && forall m :: 0 <= m < i ==> !YearsAt(s, m)
  }

  /** The digits of a match at `i` followed by " anos". */
  function YearsValue(s: string, i: nat): string
    requires i <= |s|
  {
    s[i..i + DigitRun(s[i..])] + " anos"
  }

  /** `_extract_years_experience`: the digits of the leftmost match followed
      by " anos", or nothing without a match. */
  function YearsExperience(text: string): (r: Option<string>)
    ensures r.None? <==> forall i :: !YearsAt(text, i)
    ensures r.Some? ==> exists i :: LeftmostYears(text, i) && r.value == YearsValue(text, i)
  {
    match YearsFrom(text, 0)
    case None => None
    case Some(i) =>
      assert LeftmostYears(text, i);
      Some(YearsValue(text, i))
  }

  /** The reported years are a non-empty run of digits and " anos". */
  lemma YearsShape(text: string)
    requires YearsExperience(text).Some?
    ensures var v := YearsExperience(text).value;
            && |v| > 5 && EndsWith(v, " anos")
            && forall k :: 0 <= k < |v| - 5 ==> IsDigit(v[k])
  {
    var i :| LeftmostYears(text, i) && YearsExperience(text).value == YearsValue(text, i);
    YearsValueShape(text, i);
  }

  lemma YearsValueShape(s: string, i: nat)
    requires YearsAt(s, i)
    ensures var v := YearsValue(s, i);
            && |v| > 5 && EndsWith(v, " anos")
            && forall k :: 0 <= k < |v| - 5 ==> IsDigit(v[k])
  {
    var v := YearsValue(s, i);
    var d := s[i..i + DigitRun(s[i..])];
    assert |d| > 0;
    assert v[|v| - 5..] == " anos";
    forall k | 0 <= k < |v| - 5 ensures IsDigit(v[k]) {
      assert v[k] == d[k] == s[i..][k];
    }
  }

  /*************************************************************************
   * summarize_resume, rule-based branches (services.py:443-479)
   *************************************************************************/

  const SummaryKeywords: seq<string> := ["experiência", "desenvolvedor", "engenheiro", "analista", "especialista", "foco"]

  predicate IsKeySentence(sentence: string) {
    exists kw :: kw in SummaryKeywords && Contains(Lower(sentence), kw)
  }

  /** The sentences naming one of the keywords, in order. */
  function KeySentences(ss: seq<string>): (r: seq<string>)
    ensures forall x :: x in r <==> x in ss && IsKeySentence(x)
    ensures SubseqOf(r, ss)
    decreases |ss|
  {
    if ss == [] then []
    else
      var init := ss[..|ss| - 1];
      var last := ss[|ss| - 1];
      assert ss == init + [last];
      SubseqStep(KeySentences(init), init, last, IsKeySentence(last));
      KeySentences(init) + (if IsKeySentence(last) then [last] else [])
  }

  lemma {:induction false} KeySentencesConcat(a: seq<string>, b: seq<string>)
    ensures KeySentences(a + b) == KeySentences(a) + KeySentences(b)
    decreases |b|
  {
    if b != [] {
      var init := b[..|b| - 1];
      var last := b[|b| - 1];
      var extra := if IsKeySentence(last) then [last] else [];
      KeySentencesConcat(a, init);
      assert (a + b)[..|a + b| - 1] == a + init;
      assert (a + b)[|a + b| - 1] == last;
      assert KeySentences(a + b) == KeySentences(a + init) + extra;
      assert KeySentences(b) == KeySentences(init) + extra;
      assert KeySentences(a) + KeySentences(init) + extra == KeySentences(a) + (KeySentences(init) + extra);
    } else {
      assert a + b == a;
    }
  }

  /** The sentences the fallback keeps: the first three keyword sentences,
      or the first three sentences when none names a keyword. */
  function SummaryPick(ss: seq<string>): seq<string> {
    var key := KeySentences(ss);
    if key == [] then Take(ss, 3) else Take(key, 3)
  }

  /** What `summarize_resume` returns when no summarization model is loaded. */
  function SummaryOf(text: string): string {
    if Blank(text) then ""
    else
      var ss := Sentences(text);
      if |ss| <= 3 then text else Join(SummaryPick(ss), " ")
  }

  /** Blank text gives an empty summary; text of at most three sentences is
      returned unchanged. */
  lemma SummaryShortText(text: string)
    ensures Blank(text) ==> SummaryOf(text) == ""
    ensures !Blank(text) && |Sentences(text)| <= 3 ==> SummaryOf(text) == text
  {
  }

  /** For longer text the summary joins, with single spaces, at most three
      of its sentences in their order: keyword sentences when there are any,
      else the first three. */
  lemma SummaryOfLongText(text: string)
    requires !Blank(text) && |Sentences(text)| > 3
    ensures var ss := Sentences(text);
            var p := SummaryPick(ss);
            && SummaryOf(text) == Join(p, " ")
            && 1 <= |p| <= 3
            && SubseqOf(p, ss)
            && (KeySentences(ss) != [] ==> forall x :: x in p ==> IsKeySentence(x))
            && (KeySentences(ss) == [] ==> p == ss[..3])
  {
    var ss := Sentences(text);
    var key := KeySentences(ss);
    var p := SummaryPick(ss);
    if key == [] {
      assert p == ss[..3];
      assert ss == ss[..3] + ss[3..];
      SubseqPrefix(ss, 3);
    } else {
      assert p == key[..|p|];
      SubseqPrefix(key, |p|);
      SubseqTrans(p, key, ss);
      forall x | x in p ensures IsKeySentence(x) {
        assert x in key;
      }
    }
  }

  /** Every prefix is a subsequence. */
  lemma {:induction false} SubseqPrefix<T>(s: seq<T>, n: nat)
    requires n <= |s|
    ensures SubseqOf(s[..n], s)
    decreases |s|
  {
    if n == |s| {
      assert s[..n] == s;
      SubseqOfSelf(s);
    } else {
      var init := s[..|s| - 1];
      SubseqPrefix(init, n);
      assert init[..n] == s[..n];
      SubseqExtend(s[..n], init, s[|s| - 1]);
      assert init + [s[|s| - 1]] == s;
    }
  }

  /** A subsequence of a subsequence is a subsequence. */
  lemma {:induction false} SubseqTrans<T>(a: seq<T>, b: seq<T>, c: seq<T>)
    requires SubseqOf(a, b) && SubseqOf(b, c)
    ensures SubseqOf(a, c)
    decreases |c|
  {
    if a != [] {
      var la := a[|a| - 1];
      var lb := b[|b| - 1];
      var lc := c[|c| - 1];
      var b' := b[..|b| - 1];
      var c' := c[..|c| - 1];
      assert c == c' + [lc];
      if lb == lc {
        if la == lb {
          SubseqTrans(a[..|a| - 1], b', c');
        } else {
          SubseqTrans(a, b', c');
        }
      } else {
        SubseqTrans(a, b, c');
        SubseqExtend(a, c', lc);
      }
    }
  }

  /** One more sentence adds itself when it names a keyword. */
  lemma KeySentencesStep(ss: seq<string>, i: nat)
    requires i < |ss|
    ensures KeySentences(ss[..i + 1])
         == KeySentences(ss[..i]) + (if IsKeySentence(ss[i]) then [ss[i]] else [])
  {
    assert ss[..i + 1][..i] == ss[..i];
  }

  /** Once a prefix holds three keyword sentences, they are the first three. */
  lemma TakeAtThree(ss: seq<string>, n: nat)
    requires n <= |ss| && |KeySentences(ss[..n])| == 3
    ensures Take(KeySentences(ss), 3) == KeySentences(ss[..n])
  {
    KeySentencesConcat(ss[..n], ss[n..]);
    assert ss[..n] + ss[n..] == ss;
  }

  /** `summarize_resume` without a model. */
  method SummarizeResume(text: string) returns (summary: string)
    ensures summary == SummaryOf(text)
  {
    if Blank(text) {
      return "";
    }
    var sentences := Sentences(text);
    if |sentences| <= 3 {
      return text;
    }
    var keySentences := CollectKeySentences(sentences);
    if keySentences == [] {
      keySentences := sentences[..3];
    }
    assert keySentences == SummaryPick(sentences);
    summary := Join(keySentences, " ");
  }

  /** The keyword loop of `summarize_resume`, which stops at three. */
  method CollectKeySentences(sentences: seq<string>) returns (keySentences: seq<string>)
    ensures keySentences == Take(KeySentences(sentences), 3)
  {
    keySentences := [];
    var i := 0;
    while i < |sentences|
      invariant 0 <= i <= |sentences|
      invariant keySentences == KeySentences(sentences[..i])
      invariant |keySentences| < 3
    {
      var sentence := sentences[i];
      KeySentencesStep(sentences, i);
      if IsKeySentence(sentence) {
        keySentences := keySentences + [sentence];
      }
      if |keySentences| >= 3 {
        TakeAtThree(sentences, i + 1);
        return;
      }
      i := i + 1;
    }
    assert sentences[..i] == sentences;
  }

  /*************************************************************************
   * simulate_interview (services.py:568-615)
   *************************************************************************/

  /** One question with its answer. */
  datatype QA = QA(question: string, answer: string)

  // The fixed texts are written as short literals joined by `+`, which
  // keeps the proofs that mention them cheap.

  function TechQuestion(tech: string): string {
    "Descreva sua experiência prática com " + tech + "."
  }

  const TechAnswerLead: string := "Tenho experiência sólida com "
  const TechAnswerMiddle: string := ", desenvolvendo soluções "
                                    + "robustas e escaláveis. "
                                    + "Trabalho com essa "
                                    + "tecnologia há "
  const TechAnswerEnd: string := ", aplicando-a em projetos "
                                 + "diversos."

  function TechAnswer(tech: string, years: Option<string>): string {
    TechAnswerLead + tech + TechAnswerMiddle + years.GetOr("alguns anos") + TechAnswerEnd
  }

  const ProjectQuestion: string := "Conte sobre um projeto "
                                   + "relevante que você "
                                   + "desenvolveu."

  const ChallengeQA: QA := QA(
    "Descreva um projeto técnico "
    + "que você considera seu "
    + "maior desafio.",
    "Desenvolvi um sistema "
    + "completo de automação que "
    + "resultou em melhoria "
    + "significativa na eficiência "
    + "dos processos, utilizando "
    + "tecnologias modernas e boas "
    + "práticas de desenvolvimento.")

  const QualityQA: QA := QA(
    "Como você garante a "
    + "qualidade e escalabilidade "
    + "dos seus sistemas?",
    "Aplico princípios de "
    + "arquitetura limpa, uso de "
    + "testes automatizados, "
    + "containerização com Docker, "
    + "e implemento monitoramento "
    + "contínuo. Sempre considero "
    + "performance e "
    + "manutenibilidade.")

  const TeamQA: QA := QA(
    "Como você trabalha em "
    + "equipe multidisciplinar?",
    "Utilizo metodologias ágeis, "
    + "mantenho comunicação clara "
    + "sobre progresso e desafios, "
    + "documento bem o código para "
    + "facilitar a colaboração, e "
    + "estou sempre disponível "
    + "para apoiar colegas.")

  const MotivationQA: QA := QA(
    "Por que você tem interesse "
    + "nesta posição?",
    "Estou motivado em aplicar "
    + "minhas habilidades técnicas "
    + "para resolver problemas "
    + "reais e contribuir com uma "
    + "equipe que valoriza "
    + "inovação, crescimento "
    + "profissional e excelência "
    + "técnica.")

  /** The technologies `simulate_interview` finds: those of the résumé and the
      job description together (`None` for the description is "" here). */
  function InterviewTechs(resumeText: string, jobDescription: string): seq<string> {
    TechsIn(Lower(resumeText + " " + jobDescription), KnownTech)
  }

  function InterviewProjects(resumeText: string): seq<string> {
    Take(Scan(Projects, Split(resumeText, '\n')).items, 3)
  }

  const ClosingQAs: seq<QA> := [QualityQA, TeamQA, MotivationQA]

  /** The question on the first technology, when there is one. */
  function TechQAs(techs: seq<string>, years: Option<string>): seq<QA> {
    if techs != [] then [QA(TechQuestion(techs[0]), TechAnswer(techs[0], years))] else []
  }

  function ProjectQA(projects: seq<string>): QA {
    if projects != [] then QA(ProjectQuestion, projects[0]) else ChallengeQA
  }

  /** The questions `simulate_interview` returns for a résumé and a job
      description. */
  function InterviewOf(resumeText: string, jobDescription: string): seq<QA> {
    TechQAs(InterviewTechs(resumeText, jobDescription), YearsExperience(resumeText))
      + [ProjectQA(InterviewProjects(resumeText))] + ClosingQAs
  }

  lemma ClosingAppended(opening: seq<QA>, qa: seq<QA>)
    requires qa == opening + [QualityQA] + [TeamQA] + [MotivationQA]
    ensures qa == opening + ClosingQAs
  {
    var c := ClosingQAs;
    assert |c| == 3 && c[0] == QualityQA && c[1] == TeamQA && c[2] == MotivationQA;
    assert qa[..|opening|] == opening;
    assert qa[|opening|..] == c;
  }

  /** `simulate_interview`, append by append. */
  method SimulateInterview(resumeText: string, jobDescription: string) returns (qa: seq<QA>)
    ensures qa == InterviewOf(resumeText, jobDescription)
  {
    var techs := ExtractTechs(resumeText + " " + jobDescription);
    var projects := ExtractProjects(resumeText);
    var years := YearsExperience(resumeText);
    qa := [];
    if techs != [] {
      var mainTech := techs[0];
      qa := qa + [QA(TechQuestion(mainTech), TechAnswer(mainTech, years))];
    }
    assert qa == TechQAs(techs, years);
    if projects != [] {
      qa := qa + [QA(ProjectQuestion, projects[0])];
    } else {
      qa := qa + [ChallengeQA];
    }
    ghost var opening := qa;
    assert opening == TechQAs(techs, years) + [ProjectQA(projects)];
    qa := qa + [QualityQA];
    qa := qa + [TeamQA];
    qa := qa + [MotivationQA];
    ClosingAppended(opening, qa);
  }

  /** Five questions with a technology to ask about, four without; the
      technology question comes first, then the project question, then the
      three fixed ones. */
  lemma InterviewShape(resumeText: string, jobDescription: string)
    ensures var techs := InterviewTechs(resumeText, jobDescription);
            var projects := InterviewProjects(resumeText);
            var qa := InterviewOf(resumeText, jobDescription);
            && |qa| == (if techs != [] then 5 else 4)
            && (techs != [] ==> qa[0].question == TechQuestion(techs[0]))
            && qa[|qa| - 4] == ProjectQA(projects)
            && (projects != [] ==> qa[|qa| - 4].answer == projects[0])
            && qa[|qa| - 3..] == ClosingQAs
  {
    ClosingCount();
    InterviewAssembled(TechQAs(InterviewTechs(resumeText, jobDescription), YearsExperience(resumeText)),
                       ProjectQA(InterviewProjects(resumeText)), ClosingQAs);
  }

  lemma ClosingCount()
    ensures |ClosingQAs| == 3
  {
  }

  /** Where the pieces of an interview end up. */
  lemma InterviewAssembled(head: seq<QA>, project: QA, closing: seq<QA>)
    requires |head| <= 1 && |closing| == 3
    ensures var qa := head + [project] + closing;
            && |qa| == |head| + 4
            && (head != [] ==> qa[0] == head[0])
            && qa[|qa| - 4] == project
            && qa[|qa| - 3..] == closing
  {
    var qa := head + [project] + closing;
    assert qa[|qa| - 3..] == closing;
  }

  /** The technology answer names the years found in the résumé, or "alguns
      anos" when none are. */
  lemma TechAnswerYears(tech: string, years: Option<string>)
    ensures years.None? ==> TechAnswer(tech, years) == TechAnswer(tech, Some("alguns anos"))
    ensures years.Some? ==> Contains(TechAnswer(tech, years), years.value)
  {
    if years.Some? {
      var pre := TechAnswerLead + tech + TechAnswerMiddle;
      assert TechAnswer(tech, years) == pre + years.value + TechAnswerEnd;
      assert OccursAt(pre + years.value + TechAnswerEnd, years.value, |pre|);
    }
  }

  /** The project answer is the text after `- ` of a bullet met inside the
      section opened by a "projeto ... relevante" line. */
  lemma InterviewProjectAnswer(resumeText: string)
    requires InterviewProjects(resumeText) != []
    ensures Collected(Projects, Split(resumeText, '\n'), InterviewProjects(resumeText)[0])
  {
    var lines := Split(resumeText, '\n');
    ScanItemsCollected(Projects, lines);
    assert InterviewProjects(resumeText)[0] == Scan(Projects, lines).items[0];
  }
}
