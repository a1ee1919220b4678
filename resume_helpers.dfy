/** The rule-based résumé helpers of ai-job-backend/ai-python-service/services.py:
    technology detection against a fixed list, sentence splitting, role
    detection, the line-oriented section scanners for projects and
    certifications, experience lines, years of experience, character
    truncation, the summary fallback, the interview builder, and the
    technology ordering, title choice and differentials of the markdown
    builder. Python's `str.lower`, `str.strip` and `\s` use the same fixed
    character sets as the JavaScript side (module Text). */
module ResumeHelpers {
  import opened Wrappers
  import opened Text

  /*************************************************************************
   * Sequences kept in order
   *************************************************************************/

  /** `a` is `b` with some elements removed, the rest in their order. */
  predicate SubseqOf<T(==)>(a: seq<T>, b: seq<T>)
    decreases |b|
  {
    if a == [] then true
    else if b == [] then false
    else if a[|a| - 1] == b[|b| - 1] then SubseqOf(a[..|a| - 1], b[..|b| - 1])
    else SubseqOf(a, b[..|b| - 1])
  }

  lemma {:induction false} SubseqOfSelf<T>(a: seq<T>)
    ensures SubseqOf(a, a)
    decreases |a|
  {
    if a != [] {
      SubseqOfSelf(a[..|a| - 1]);
    }
  }

  /** Appending to `b` keeps `a` a subsequence of it. */
  lemma {:induction false} SubseqExtend<T>(a: seq<T>, b: seq<T>, x: T)
    requires SubseqOf(a, b)
    ensures SubseqOf(a, b + [x])
    decreases |b|, 1
  {
    var c := b + [x];
    assert c[..|c| - 1] == b;
    if a != [] && a[|a| - 1] == x {
      SubseqDropLast(a, b);
    }
  }

  lemma {:induction false} SubseqDropLast<T>(a: seq<T>, b: seq<T>)
    requires a != [] && SubseqOf(a, b)
    ensures SubseqOf(a[..|a| - 1], b)
    decreases |b|, 0
  {
    var b' := b[..|b| - 1];
    assert b == b' + [b[|b| - 1]];
    if a[|a| - 1] == b[|b| - 1] {
      SubseqExtend(a[..|a| - 1], b', b[|b| - 1]);
    } else {
      SubseqDropLast(a, b');
      SubseqExtend(a[..|a| - 1], b', b[|b| - 1]);
    }
  }

  /** Keeping or dropping the next element of `b` preserves the relation. */
  lemma SubseqStep<T>(a: seq<T>, b: seq<T>, x: T, keep: bool)
    requires SubseqOf(a, b)
    ensures SubseqOf(a + (if keep then [x] else []), b + [x])
  {
    var c := b + [x];
    assert c[..|c| - 1] == b;
    if keep {
      var a' := a + [x];
      assert a'[..|a'| - 1] == a;
    } else {
      assert a + [] == a;
      SubseqExtend(a, b, x);
    }
  }

  /*************************************************************************
   * _extract_techs (services.py:104-121)
   *************************************************************************/

  const KnownTech: seq<string> := [
    "Python", "JavaScript", "TypeScript", "C#", "Node.js", "React", "Next.js", "Vue.js",
    "TensorFlow", "PyTorch", "LangChain", "Hugging Face", "AWS", "S3", "DynamoDB", "Docker",
    "Kubernetes", "SQL", "Postgres", "MongoDB", "Redis", "GraphQL", "FastAPI", "Django",
    "Flask", "Angular", "Vue", "Svelte", "Go", "Rust", "Java", "Kotlin", "Swift"
  ]

  /** The entries of `xs` whose lower-case form occurs in the lower-cased
      text `txt`, in list order. */
  function TechsIn(txt: string, xs: seq<string>): (r: seq<string>)
    ensures |r| <= |xs|
    decreases |xs|
  {
    if xs == [] then []
    else
      var last := xs[|xs| - 1];
      TechsIn(txt, xs[..|xs| - 1]) + (if Contains(txt, Lower(last)) then [last] else [])
  }

  /** A technology is reported exactly when it is in the list and its
      lower-case form occurs in the text. */
  lemma {:induction false} TechsInMembers(txt: string, xs: seq<string>)
    ensures forall t :: t in TechsIn(txt, xs) <==> t in xs && Contains(txt, Lower(t))
    decreases |xs|
  {
    if xs != [] {
      TechsInMembers(txt, xs[..|xs| - 1]);
      assert xs == xs[..|xs| - 1] + [xs[|xs| - 1]];
    }
  }

  /** The report keeps the list order. */
  lemma {:induction false} TechsInOrdered(txt: string, xs: seq<string>)
    ensures SubseqOf(TechsIn(txt, xs), xs)
    decreases |xs|
  {
    if xs != [] {
      var init := xs[..|xs| - 1];
      var last := xs[|xs| - 1];
      TechsInOrdered(txt, init);
      assert xs == init + [last];
      SubseqStep(TechsIn(txt, init), init, last, Contains(txt, Lower(last)));
    }
  }

  /** `_extract_techs`, loop by loop. */
  method ExtractTechs(text: string) returns (found: seq<string>)
    ensures found == TechsIn(Lower(text), KnownTech)
  {
    var txt := Lower(text);
    found := [];
    for i := 0 to |KnownTech|
      invariant found == TechsIn(txt, KnownTech[..i])
    {
      var tech := KnownTech[i];
      TechsInStep(txt, KnownTech, i);
      if Contains(txt, Lower(tech)) {
        found := found + [tech];
      }
    }
    assert KnownTech[..|KnownTech|] == KnownTech;
  }

  /** One more entry of the list is one more test. */
  lemma TechsInStep(txt: string, xs: seq<string>, i: nat)
    requires i < |xs|
    ensures TechsIn(txt, xs[..i + 1]) == TechsIn(txt, xs[..i]) + (if Contains(txt, Lower(xs[i])) then [xs[i]] else [])
  {
    assert xs[..i + 1][..i] == xs[..i];
  }

  /*************************************************************************
   * _sentences (services.py:111-113)
   *************************************************************************/

  /** The pattern `(?<=[\.\?\!])\s+` can start at `i`: whitespace right after
      a sentence-ending mark. */
  predicate SplitPointAt(s: string, i: int) {
    0 < i < |s| && IsWs(s[i]) && s[i - 1] in ".?!"
  }

  function FirstSplitFrom(s: string, k: nat): (r: Option<nat>)
    ensures r.Some? ==> k <= r.value && SplitPointAt(s, r.value)
    ensures r.Some? ==> forall m :: k <= m < r.value ==> !SplitPointAt(s, m)
    ensures r.None? ==> forall m :: k <= m ==> !SplitPointAt(s, m)
    decreases |s| - k
  {
    if k >= |s| then None
    else if SplitPointAt(s, k) then Some(k)
    else FirstSplitFrom(s, k + 1)
  }

  /** `re.split(r'(?<=[\.\?\!])\s+', s)`: each match is a whole run of
      whitespace after `.`, `?` or `!`. */
  function SentencePieces(s: string): (r: seq<string>)
    ensures |r| >= 1
    decreases |s|
  {
    match FirstSplitFrom(s, 1)
    case None => [s]
    case Some(i) => [s[..i]] + SentencePieces(s[i + LeadingWs(s[i..])..])
  }

  /** `[seg.strip() for seg in pieces if seg.strip()]` */
  function StrippedNonEmpty(pieces: seq<string>): (r: seq<string>)
    ensures |r| <= |pieces|
    ensures forall k :: 0 <= k < |r| ==> r[k] != "" && Trimmed(r[k])
  {
    if pieces == [] then []
    else
      var t := Trim(pieces[0]);
      TrimIdempotent(pieces[0]);
      (if t != "" then [t] else []) + StrippedNonEmpty(pieces[1..])
  }

  /** `_sentences(text)`: every sentence is non-empty and stripped. */
  function Sentences(text: string): (r: seq<string>)
    ensures forall k :: 0 <= k < |r| ==> r[k] != "" && Trimmed(r[k])
  {
    StrippedNonEmpty(SentencePieces(text))
  }

  /** Text without a sentence mark followed by whitespace is one sentence:
      its stripped self, if not blank. */
  lemma OneSentence(text: string)
    requires forall i :: 0 <= i < |text| ==> !SplitPointAt(text, i)
    ensures Sentences(text) == if Blank(text) then [] else [Trim(text)]
  {
    assert FirstSplitFrom(text, 1).None?;
  }

  /*************************************************************************
   * _extract_roles (services.py:123-125)
   *************************************************************************/

  const RolePatterns: seq<string> := ["desenvolvedor", "desenvolvedora", "analista", "engenheiro", "cientista", "gerente", "coordenador"]

  /** Characters Python's `\w` matches up to Latin-1: `_` and what
      `isalnum` accepts there, that is ASCII letters and digits, the
      superscript digits, the vulgar fractions and the letters of Latin-1. */
  predicate IsWordChar(c: char) {
    || 'a' <= c <= 'z' || 'A' <= c <= 'Z' || '0' <= c <= '9' || c == '_'
    || c == '\U{00B2}' || c == '\U{00B3}' || c == '\U{00B9}'
    || ('\U{00BC}' <= c <= '\U{00BE}')
    || c == '\U{00AA}' || c == '\U{00B5}' || c == '\U{00BA}'
    || ('\U{00C0}' <= c <= '\U{00FF}' && c != '\U{00D7}' && c != '\U{00F7}')
  }

  /** `\b p \b` matches at `i`, ignoring case: `p` occurs there and is not
      glued to a word character on either side. */
  predicate WordAt(text: string, p: string, i: int) {
    && OccursAt(Lower(text), p, i)
    && (i == 0 || !IsWordChar(text[i - 1]))
    && (i + |p| == |text| || !IsWordChar(text[i + |p|]))
  }

  predicate HasWord(text: string, p: string) {
    exists i :: 0 <= i <= |text| && WordAt(text, p, i)
  }

  function RolesIn(text: string, ps: seq<string>): (r: seq<string>)
    ensures forall p :: p in r <==> p in ps && HasWord(text, p)
    ensures SubseqOf(r, ps)
    decreases |ps|
  {
    if ps == [] then []
    else
      var init := RolesIn(text, ps[..|ps| - 1]);
      var last := ps[|ps| - 1];
      assert ps == ps[..|ps| - 1] + [last];
      SubseqStep(init, ps[..|ps| - 1], last, HasWord(text, last));
      init + (if HasWord(text, last) then [last] else [])
  }

  /** `_extract_roles`: the patterns found as whole words, in list order. */
  function ExtractRoles(text: string): (r: seq<string>)
    ensures forall p :: p in r <==> p in RolePatterns && HasWord(text, p)
  {
    RolesIn(text, RolePatterns)
  }

  /** "desenvolvedora" does not count as "desenvolvedor": the word continues. */
  lemma FeminineIsNotMasculine()
    ensures "desenvolvedora" in ExtractRoles("Desenvolvedora")
    ensures "desenvolvedor" !in ExtractRoles("Desenvolvedora")
  {
    var t := "Desenvolvedora";
    assert Lower(t) == "desenvolvedora";
    assert WordAt(t, "desenvolvedora", 0);
    forall i | 0 <= i <= |t| ensures !WordAt(t, "desenvolvedor", i) {
      if i == 0 {
        assert t[13] == 'a';
      } else if i + 13 <= |t| {
        assert Lower(t)[i] != 'd';
      }
    }
  }

  /*************************************************************************
   * truncate_text without a tokenizer (services.py:58-63)
   *************************************************************************/

  /** `text[:max_chars] if len(text) > max_chars else text` with
      `max_chars = max_tokens * 4`; a negative bound slices from the end,
      as Python does. */
  function TruncateText(text: string, maxTokens: int): (r: string)
    ensures maxTokens >= 0 ==> StartsWith(text, r) && |r| == if |text| <= 4 * maxTokens then |text| else 4 * maxTokens
    ensures |text| <= 4 * maxTokens ==> r == text
    ensures StartsWith(text, r)
  {
    var maxChars := maxTokens * 4;
    if |text| > maxChars then
      if maxChars >= 0 then text[..maxChars]
      else if |text| + maxChars >= 0 then text[..|text| + maxChars]
      else ""
    else text
  }

  /*************************************************************************
   * Technology order, title and differentials of
   * _generate_resume_markdown_programmatic (services.py:202-226, 408-434)
   *************************************************************************/

  function InJob(all: seq<string>, job: seq<string>): (r: seq<string>)
    ensures forall t :: t in r <==> t in all && t in job
    ensures SubseqOf(r, all)
    decreases |all|
  {
    Keep(all, job, true)
  }

  function NotInJob(all: seq<string>, job: seq<string>): (r: seq<string>)
    ensures forall t :: t in r <==> t in all && t !in job
    ensures SubseqOf(r, all)
    decreases |all|
  {
    Keep(all, job, false)
  }

  /** The elements of `all` whose membership in `job` is `inside`. */
  function Keep(all: seq<string>, job: seq<string>, inside: bool): (r: seq<string>)
    ensures forall t :: t in r <==> t in all && (t in job <==> inside)
    ensures SubseqOf(r, all)
    decreases |all|
  {
    if all == [] then []
    else
      var init := Keep(all[..|all| - 1], job, inside);
      var last := all[|all| - 1];
      assert all == all[..|all| - 1] + [last];
      SubseqStep(init, all[..|all| - 1], last, (last in job) == inside);
      init + (if (last in job) == inside then [last] else [])
  }

  lemma MultisetLast<T>(s: seq<T>)
    requires |s| > 0
    ensures multiset(s) == multiset(s[..|s| - 1]) + multiset{s[|s| - 1]}
  {
    assert s == s[..|s| - 1] + [s[|s| - 1]];
  }

  lemma {:induction false} KeepSplits(all: seq<string>, job: seq<string>)
    ensures multiset(Keep(all, job, true)) + multiset(Keep(all, job, false)) == multiset(all)
    decreases |all|
  {
    if all != [] {
      var init := all[..|all| - 1];
      var last := all[|all| - 1];
      KeepSplits(init, job);
      MultisetLast(all);
      var t := Keep(init, job, true);
      var f := Keep(init, job, false);
      KeepLast(all, job, true);
      KeepLast(all, job, false);
      MultisetAddOne(multiset(t), multiset(f), multiset(init), last);
      if last in job {
        assert multiset(Keep(all, job, true)) == multiset(t) + multiset{last};
        assert multiset(Keep(all, job, false)) == multiset(f);
      } else {
        assert multiset(Keep(all, job, true)) == multiset(t);
        assert multiset(Keep(all, job, false)) == multiset(f) + multiset{last};
      }
    }
  }

  /** One more element on either side of a split. */
  lemma MultisetAddOne<T>(a: multiset<T>, b: multiset<T>, c: multiset<T>, x: T)
    requires a + b == c
    ensures (a + multiset{x}) + b == c + multiset{x}
    ensures a + (b + multiset{x}) == c + multiset{x}
  {
  }

  /** `Keep` decides on the last element after the others. */
  lemma KeepLast(all: seq<string>, job: seq<string>, inside: bool)
    requires all != []
    ensures Keep(all, job, inside)
            == Keep(all[..|all| - 1], job, inside) + (if (all[|all| - 1] in job) == inside then [all[|all| - 1]] else [])
  {
  }

  /** `priority_techs`: the technologies the job asks for first, then the
      others, each group in its original order. */
  function PriorityTechs(all: seq<string>, job: seq<string>): seq<string> {
    InJob(all, job) + NotInJob(all, job)
  }

  /** The reordering is a permutation of the technologies found. */
  lemma PriorityTechsPermutes(all: seq<string>, job: seq<string>)
    ensures multiset(PriorityTechs(all, job)) == multiset(all)
  {
    KeepSplits(all, job);
  }

  /** Every technology the job asks for comes before every other one, and
      each group keeps its order in `all`. */
  lemma PriorityTechsJobFirst(all: seq<string>, job: seq<string>)
    ensures forall i, j :: 0 <= i < j < |PriorityTechs(all, job)| && PriorityTechs(all, job)[j] in job
              ==> PriorityTechs(all, job)[i] in job
    ensures SubseqOf(InJob(all, job), all) && SubseqOf(NotInJob(all, job), all)
  {
    var r := PriorityTechs(all, job);
    var a := InJob(all, job);
    var b := NotInJob(all, job);
    forall k | |a| <= k < |r| ensures r[k] !in job {
      assert r[k] == b[k - |a|];
      assert b[k - |a|] in b;
    }
    forall k | 0 <= k < |a| ensures r[k] in job {
      assert r[k] == a[k];
      assert a[k] in a;
    }
  }

  const DefaultTitle: string := "Desenvolvedor/Engenheiro de IA"

  /** The title chosen from the job description, in the order fullstack,
      backend, frontend, data scientist, devops. */
  function Title(jobDescription: string): (title: string)
    ensures jobDescription == "" ==> title == DefaultTitle
    ensures Contains(Lower(jobDescription), "fullstack") ==> title == "Desenvolvedor Full Stack"
    ensures title == "Cientista de Dados" ==>
              Contains(Lower(jobDescription), "data scientist")
              && !Contains(Lower(jobDescription), "fullstack") && !Contains(Lower(jobDescription), "backend")
              && !Contains(Lower(jobDescription), "frontend")
  {
    if jobDescription == "" then DefaultTitle
    else
      var jobLower := Lower(jobDescription);
      if Contains(jobLower, "fullstack") then "Desenvolvedor Full Stack"
      else if Contains(jobLower, "backend") then "Desenvolvedor Backend"
      else if Contains(jobLower, "frontend") then "Desenvolvedor Frontend"
      else if Contains(jobLower, "data scientist") then "Cientista de Dados"
      else if Contains(jobLower, "devops") then "Engenheiro DevOps"
      else DefaultTitle
  }

  /** For a non-empty description each title is chosen exactly when its
      keyword occurs and no keyword tested before it does; the default
      remains when none occurs. */
  lemma TitlePriority(jobDescription: string)
    requires jobDescription != ""
    ensures var j := Lower(jobDescription);
            && (Title(jobDescription) == "Desenvolvedor Full Stack" <==> Contains(j, "fullstack"))
            && (Title(jobDescription) == "Desenvolvedor Backend" <==> !Contains(j, "fullstack") && Contains(j, "backend"))
            && (Title(jobDescription) == "Desenvolvedor Frontend"
                <==> !Contains(j, "fullstack") && !Contains(j, "backend") && Contains(j, "frontend"))
            && (Title(jobDescription) == "Cientista de Dados"
                <==> !Contains(j, "fullstack") && !Contains(j, "backend") && !Contains(j, "frontend")
                     && Contains(j, "data scientist"))
            && (Title(jobDescription) == "Engenheiro DevOps"
                <==> !Contains(j, "fullstack") && !Contains(j, "backend") && !Contains(j, "frontend")
                     && !Contains(j, "data scientist") && Contains(j, "devops"))
            && (Title(jobDescription) == DefaultTitle
                <==> !Contains(j, "fullstack") && !Contains(j, "backend") && !Contains(j, "frontend")
                     && !Contains(j, "data scientist") && !Contains(j, "devops"))
  {
  }

  /** A pair of the `tech_differentials` table, in its insertion order. The
      texts below are written as short literals joined by `+`, which keeps
      the proofs that mention them cheap. */
  datatype Differential = Differential(key: string, text: string)

  const TechDifferentials: seq<Differential> := [
    Differential("python", "✓ **Expertise em Python** - "
                           + "linguagem principal para "
                           + "desenvolvimento"),
    Differential("javascript", "✓ **JavaScript Avançado** - "
                               + "desenvolvimento web moderno"),
    Differential("react", "✓ **React Specialist** - "
                          + "interfaces de usuário "
                          + "avançadas"),
    Differential("aws", "✓ **Cloud Computing** - "
                        + "experiência AWS para "
                        + "sistemas escaláveis"),
    Differential("docker", "✓ **Containerização** - "
                           + "deploy e orquestração com "
                           + "Docker/Kubernetes"),
    Differential("api", "✓ **APIs Escaláveis** - "
                        + "desenvolvimento de serviços "
                        + "robustos")
  ]

  const GenericDifferentials: seq<string> := [
    "✓ **Experiência técnica "
    + "alinhada** com os "
    + "requisitos da posição",
    "✓ **Capacidade comprovada** "
    + "de entrega em projetos "
    + "complexos"
  ]

  /** `any(tech.lower() in tech_key for tech in priority_techs)`: note the
      direction, a technology name inside the key. */
  predicate AnyTechInKey(key: string, techs: seq<string>) {
    exists t :: t in techs && Contains(key, Lower(t))
  }

  predicate Fires(d: Differential, jobLower: string, techs: seq<string>) {
    Contains(jobLower, d.key) && AnyTechInKey(d.key, techs)
  }

  /** The table entries that fire, in table order. */
  function Fired(ds: seq<Differential>, jobLower: string, techs: seq<string>): (r: seq<string>)
    ensures |r| <= |ds|
    ensures forall x :: x in r <==> exists d :: d in ds && Fires(d, jobLower, techs) && d.text == x
    decreases |ds|
  {
    if ds == [] then []
    else
      var init := ds[..|ds| - 1];
      var last := ds[|ds| - 1];
      assert ds == init + [last];
      Fired(init, jobLower, techs) + (if Fires(last, jobLower, techs) then [last.text] else [])
  }

  /** The differentials emitted for a job description: none without one,
      otherwise the first four that fire, or the two generic ones. */
  function DifferentialsOf(jobDescription: string, techs: seq<string>): (r: seq<string>)
    ensures |r| <= 4
    ensures jobDescription == "" ==> r == []
  {
    if jobDescription == "" then []
    else
      var fired := Fired(TechDifferentials, Lower(jobDescription), techs);
      var ds := if fired == [] then GenericDifferentials else fired;
      if |ds| > 4 then ds[..4] else ds
  }

  /** The differentials block, loop by loop. */
  method Differentials(jobDescription: string, priorityTechs: seq<string>) returns (emitted: seq<string>)
    ensures emitted == DifferentialsOf(jobDescription, priorityTechs)
  {
    if jobDescription == "" {
      return [];
    }
    var jobLower := Lower(jobDescription);
    var differentials: seq<string> := [];
    for i := 0 to |TechDifferentials|
      invariant differentials == Fired(TechDifferentials[..i], jobLower, priorityTechs)
    {
      var d := TechDifferentials[i];
      assert TechDifferentials[..i + 1] == TechDifferentials[..i] + [d];
      if Contains(jobLower, d.key) && AnyTechInKey(d.key, priorityTechs) {
        differentials := differentials + [d.text];
      }
    }
    assert TechDifferentials[..|TechDifferentials|] == TechDifferentials;
    if differentials == [] {
      differentials := GenericDifferentials;
    }
    emitted := if |differentials| > 4 then differentials[..4] else differentials;
  }

  /** Every character of a substring occurs in the string. */
  lemma ContainedChars(h: string, n: string)
    requires Contains(h, n)
    ensures forall k :: 0 <= k < |n| ==> n[k] in h
  {
    var i :| 0 <= i <= |h| - |n| && OccursAt(h, n, i);
    forall k | 0 <= k < |n| ensures n[k] in h {
      assert n[k] == h[i..i + |n|][k] == h[i + k];
    }
  }

  /** The known technologies with at most three characters. */
  lemma ShortKnownTech(t: string)
    requires t in KnownTech && |t| <= 3
    ensures t in ["C#", "AWS", "S3", "SQL", "Vue", "Go"]
  {
  }

  /** No known technology's lower-case name occurs in "api". */
  lemma NoKnownTechInApi()
    ensures forall t :: t in KnownTech ==> !Contains("api", Lower(t))
  {
    forall t | t in KnownTech ensures !Contains("api", Lower(t)) {
      var l := Lower(t);
      if |t| <= 3 {
        ShortKnownTech(t);
        var k := if t == "AWS" then 1 else 0;
        assert l[k] !in "api";
        if Contains("api", l) {
          ContainedChars("api", l);
        }
      }
    }
  }

  /** Because the test looks for a technology name inside the key, the
      "api" entry (the last of the table) never fires for technologies of
      the known list: the differentials are those of the other five. */
  lemma ApiNeverChosen(jobDescription: string, techs: seq<string>)
    requires forall t :: t in techs ==> t in KnownTech
    ensures !Fires(TechDifferentials[5], Lower(jobDescription), techs)
    ensures Fired(TechDifferentials, Lower(jobDescription), techs)
         == Fired(TechDifferentials[..5], Lower(jobDescription), techs)
  {
    NoKnownTechInApi();
    assert TechDifferentials[5].key == "api";
    assert !AnyTechInKey("api", techs);
  }

  /*************************************************************************
   * The section scanners _extract_projects and _extract_certifications
   * (services.py:127-142, 171-186)
   *************************************************************************/

  datatype SectionKind = Projects | Certifications

  /** The line that opens a section (tested first, on every line). */
  predicate Opener(kind: SectionKind, line: string) {
    match kind
    case Projects => Contains(Lower(line), "projeto") && Contains(Lower(line), "relevante")
    case Certifications => Contains(Lower(line), "certificaç")
  }

  /** A line collected while the section is open. */
  predicate Bullet(kind: SectionKind, line: string) {
    match kind
    case Projects => StartsWith(line, "- ") && ':' in line
    case Certifications => StartsWith(line, "- ")
  }

  /** A line that closes an open section (when it is not a bullet). */
  predicate Closer(kind: SectionKind, line: string) {
    match kind
    case Projects => StartsWith(line, "Formação") || StartsWith(line, "Habilidades")
    case Certifications => line != "" && !StartsWith(line, "- ")
  }

  /** What a line does when the section is open and it is not an opener. */
  predicate Closes(kind: SectionKind, line: string) {
    !Opener(kind, line) && !Bullet(kind, line) && Closer(kind, line)
  }

  /** The items collected so far and whether the section is open. */
  datatype Section = Section(items: seq<string>, open: bool)

  /** One iteration of the scanning loop, on the stripped line. */
  function Step(kind: SectionKind, st: Section, raw: string): Section {
    var line := Trim(raw);
    if Opener(kind, line) then Section(st.items, true)
    else if st.open && Bullet(kind, line) then Section(st.items + [line[2..]], true)
    else if st.open && Closer(kind, line) then Section(st.items, false)
    else st
  }

  /** The scanner's state after the lines `lines`. */
  function Scan(kind: SectionKind, lines: seq<string>): Section
    decreases |lines|
  {
    if lines == [] then Section([], false)
    else Step(kind, Scan(kind, lines[..|lines| - 1]), lines[|lines| - 1])
  }

  /** Line `o` opened the section and no later line closed it. */
  ghost predicate OpenedAt(kind: SectionKind, lines: seq<string>, o: int) {
    && 0 <= o < |lines| && Opener(kind, Trim(lines[o]))
    && forall m :: o < m < |lines| ==> !Closes(kind, Trim(lines[m]))
  }

  lemma OpenedAtExtend(kind: SectionKind, init: seq<string>, last: string, o: int)
    requires 0 <= o < |init|
    ensures OpenedAt(kind, init + [last], o) <==> OpenedAt(kind, init, o) && !Closes(kind, Trim(last))
  {
    var lines := init + [last];
    assert forall m :: 0 <= m < |init| ==> lines[m] == init[m];
    assert lines[|init|] == last;
  }

  /** A section is open after `lines` exactly when some line opened it and
      no later line closed it. */
  lemma {:induction false} ScanOpenIff(kind: SectionKind, lines: seq<string>)
    ensures Scan(kind, lines).open <==> exists o :: OpenedAt(kind, lines, o)
    decreases |lines|
  {
    if lines != [] {
      var n := |lines| - 1;
      var init := lines[..n];
      var last := lines[n];
      assert lines == init + [last];
      var line := Trim(last);
      ScanOpenIff(kind, init);
      forall o | 0 <= o < n
        ensures OpenedAt(kind, lines, o) <==> OpenedAt(kind, init, o) && !Closes(kind, line)
      {
        OpenedAtExtend(kind, init, last, o);
      }
      if Opener(kind, line) {
        assert OpenedAt(kind, lines, n);
      } else {
        assert !OpenedAt(kind, lines, n);
        if Closes(kind, line) {
          assert !Scan(kind, lines).open;
        } else {
          assert Scan(kind, lines).open == Scan(kind, init).open;
        }
      }
    }
  }

  /** The stripped bullet line `lines[k]` was collected as `item` while the
      section was open. */
  ghost predicate CollectedAt(kind: SectionKind, lines: seq<string>, item: string, k: int) {
    && 0 <= k < |lines|
    && Scan(kind, lines[..k]).open
    && !Opener(kind, Trim(lines[k])) && Bullet(kind, Trim(lines[k]))
    && Trim(lines[k]) == "- " + item
  }

  ghost predicate Collected(kind: SectionKind, lines: seq<string>, item: string) {
    exists k :: CollectedAt(kind, lines, item, k)
  }

  lemma CollectedAtExtend(kind: SectionKind, init: seq<string>, last: string, item: string, k: int)
    requires CollectedAt(kind, init, item, k)
    ensures CollectedAt(kind, init + [last], item, k)
  {
    var lines := init + [last];
    assert lines[..k] == init[..k];
    assert lines[k] == init[k];
  }

  /** One line appends the text after the `- ` of a bullet met while the
      section is open, and leaves the items alone otherwise. */
  lemma ScanStepItems(kind: SectionKind, init: seq<string>, last: string)
    ensures var b := Scan(kind, init);
            var line := Trim(last);
            && (b.open && !Opener(kind, line) && Bullet(kind, line)
                ==> Scan(kind, init + [last]).items == b.items + [line[2..]])
            && (!(b.open && !Opener(kind, line) && Bullet(kind, line))
                ==> Scan(kind, init + [last]).items == b.items)
  {
    var lines := init + [last];
    assert lines[..|lines| - 1] == init;
  }

  /** Line `k` is a bullet met while the section is open. */
  ghost predicate CollectsAt(kind: SectionKind, lines: seq<string>, k: int) {
    && 0 <= k < |lines|
    && Scan(kind, lines[..k]).open
    && !Opener(kind, Trim(lines[k])) && Bullet(kind, Trim(lines[k]))
  }

  /** The positions of those lines, in increasing order. */
  ghost function CollectingLines(kind: SectionKind, lines: seq<string>): seq<nat>
    decreases |lines|
  {
    if lines == [] then []
    else
      var n := |lines| - 1;
      CollectingLines(kind, lines[..n]) + (if CollectsAt(kind, lines, n) then [n] else [])
  }

  /** Adding a line does not change what the earlier lines collect. */
  lemma CollectsAtExtend(kind: SectionKind, init: seq<string>, last: string, k: int)
    requires 0 <= k < |init|
    ensures CollectsAt(kind, init + [last], k) <==> CollectsAt(kind, init, k)
  {
    var lines := init + [last];
    assert lines[..k] == init[..k] && lines[k] == init[k];
  }

  /** The collecting positions lie in range, increase, and are exactly the
      lines that collect. */
  lemma {:induction false} CollectingLinesExact(kind: SectionKind, lines: seq<string>)
    ensures var idx := CollectingLines(kind, lines);
            && (forall j :: 0 <= j < |idx| ==> idx[j] < |lines|)
            && (forall j, m :: 0 <= j < m < |idx| ==> idx[j] < idx[m])
            && (forall k :: 0 <= k < |lines| ==> (CollectsAt(kind, lines, k) <==> k in idx))
    decreases |lines|
  {
    if lines != [] {
      var n := |lines| - 1;
      var init := lines[..n];
      var last := lines[n];
      assert lines == init + [last];
      CollectingLinesExact(kind, init);
      var idx0 := CollectingLines(kind, init);
      var idx := CollectingLines(kind, lines);
      assert idx == idx0 + (if CollectsAt(kind, lines, n) then [n] else []);
      forall k | 0 <= k < n
        ensures CollectsAt(kind, lines, k) <==> k in idx
      {
        CollectsAtExtend(kind, init, last, k);
      }
    }
  }

  /** The items are exactly the bullets met inside an open section: the
      `j`-th item comes from the `j`-th such line, the lines are taken in
      increasing order, and no such line is missed. */
  lemma {:induction false} ScanItemsExact(kind: SectionKind, lines: seq<string>)
    ensures var items := Scan(kind, lines).items;
            var idx := CollectingLines(kind, lines);
            && |idx| == |items|
            && (forall j :: 0 <= j < |idx| ==> CollectedAt(kind, lines, items[j], idx[j]))
            && (forall j, m :: 0 <= j < m < |idx| ==> idx[j] < idx[m])
            && (forall k :: 0 <= k < |lines| ==> (CollectsAt(kind, lines, k) <==> k in idx))
  {
    CollectingLinesExact(kind, lines);
    ScanItemsFrom(kind, lines);
  }

  /** The `j`-th item is the text of the `j`-th collecting line. */
  ghost predicate ItemsFrom(kind: SectionKind, lines: seq<string>) {
    var items := Scan(kind, lines).items;
    var idx := CollectingLines(kind, lines);
    && |idx| == |items|
    && (forall j :: 0 <= j < |idx| ==> CollectedAt(kind, lines, items[j], idx[j]))
  }

  lemma {:induction false} ScanItemsFrom(kind: SectionKind, lines: seq<string>)
    ensures ItemsFrom(kind, lines)
    decreases |lines|
  {
    if lines != [] {
      var n := |lines| - 1;
      ScanItemsFrom(kind, lines[..n]);
      assert lines == lines[..n] + [lines[n]];
      ItemsFromStep(kind, lines[..n], lines[n]);
    }
  }

  /** One more line keeps the correspondence. */
  lemma ItemsFromStep(kind: SectionKind, init: seq<string>, last: string)
    requires ItemsFrom(kind, init)
    ensures ItemsFrom(kind, init + [last])
  {
    if CollectsAt(kind, init + [last], |init|) {
      ItemsFromBullet(kind, init, last);
    } else {
      ItemsFromOther(kind, init, last);
    }
  }

  /** A bullet in an open section adds its item and its line. */
  lemma ItemsFromBullet(kind: SectionKind, init: seq<string>, last: string)
    requires ItemsFrom(kind, init) && CollectsAt(kind, init + [last], |init|)
    ensures ItemsFrom(kind, init + [last])
  {
    var lines := init + [last];
    var n := |init|;
    assert lines[..n] == init;
    ScanStepItems(kind, init, last);
    var idx0 := CollectingLines(kind, init);
    assert CollectingLines(kind, lines) == idx0 + [n];
    EarlierItemsKept(kind, init, last, Scan(kind, init).items, idx0);
    var line := Trim(last);
    assert line == "- " + line[2..];
  }

  /** Any other line adds neither an item nor a line. */
  lemma ItemsFromOther(kind: SectionKind, init: seq<string>, last: string)
    requires ItemsFrom(kind, init) && !CollectsAt(kind, init + [last], |init|)
    ensures ItemsFrom(kind, init + [last])
  {
    var lines := init + [last];
    assert lines[..|init|] == init;
    ScanStepItems(kind, init, last);
    var idx0 := CollectingLines(kind, init);
    assert CollectingLines(kind, lines) == idx0;
    EarlierItemsKept(kind, init, last, Scan(kind, init).items, idx0);
  }

  /** The items collected before the last line keep their lines. */
  lemma EarlierItemsKept(kind: SectionKind, init: seq<string>, last: string, before: seq<string>, idx0: seq<nat>)
    requires |idx0| == |before|
    requires forall j :: 0 <= j < |idx0| ==> CollectedAt(kind, init, before[j], idx0[j])
    ensures forall j :: 0 <= j < |idx0| ==> CollectedAt(kind, init + [last], before[j], idx0[j])
  {
    forall j | 0 <= j < |idx0|
      ensures CollectedAt(kind, init + [last], before[j], idx0[j])
    {
      CollectedAtExtend(kind, init, last, before[j], idx0[j]);
    }
  }

  /** Every collected item is the text after `- ` of a bullet line met
      while the section was open. */
  lemma {:induction false} ScanItemsCollected(kind: SectionKind, lines: seq<string>)
    ensures forall j :: 0 <= j < |Scan(kind, lines).items| ==>
              Collected(kind, lines, Scan(kind, lines).items[j])
    decreases |lines|
  {
    if lines != [] {
      var n := |lines| - 1;
      var init := lines[..n];
      var last := lines[n];
      assert lines == init + [last];
      ScanItemsCollected(kind, init);
      ScanStepItems(kind, init, last);
      var before := Scan(kind, init).items;
      forall j | 0 <= j < |Scan(kind, lines).items|
        ensures Collected(kind, lines, Scan(kind, lines).items[j])
      {
        var item := Scan(kind, lines).items[j];
        if j < |before| {
          assert item == before[j];
          assert Collected(kind, init, before[j]);
          var k :| CollectedAt(kind, init, before[j], k);
          CollectedAtExtend(kind, init, last, before[j], k);
          assert CollectedAt(kind, lines, item, k);
        } else {
          var line := Trim(last);
          assert line == "- " + line[2..];
          assert CollectedAt(kind, lines, item, n);
        }
      }
    } else {
      assert Scan(kind, lines).items == [];
    }
  }

  /** Without an opening line nothing is collected. */
  lemma {:induction false} NoOpenerNothingCollected(kind: SectionKind, lines: seq<string>)
    requires forall k :: 0 <= k < |lines| ==> !Opener(kind, Trim(lines[k]))
    ensures Scan(kind, lines) == Section([], false)
    decreases |lines|
  {
    if lines != [] {
      NoOpenerNothingCollected(kind, lines[..|lines| - 1]);
    }
  }

  /** A blank line neither collects nor closes a certifications section. */
  lemma BlankKeepsCertifications(st: Section, raw: string)
    requires Blank(raw)
    ensures Step(Certifications, st, raw) == st
  {
  }

  function Take<T>(xs: seq<T>, n: nat): (r: seq<T>)
    ensures |r| == if |xs| < n then |xs| else n
    ensures r == xs[..|r|]
  {
    if |xs| <= n then xs else xs[..n]
  }

  /** `_extract_projects`, loop by loop: at most three project bullets. */
  method ExtractProjects(text: string) returns (projects: seq<string>)
    ensures projects == Take(Scan(Projects, Split(text, '\n')).items, 3)
    ensures |projects| <= 3
  {
    projects := [];
    var lines := Split(text, '\n');
    var inProjectsSection := false;
    for i := 0 to |lines|
      invariant Section(projects, inProjectsSection) == Scan(Projects, lines[..i])
    {
      assert lines[..i + 1][..i] == lines[..i];
      var line := Trim(lines[i]);
      if Contains(Lower(line), "projeto") && Contains(Lower(line), "relevante") {
        inProjectsSection := true;
        continue;
      } else if inProjectsSection && StartsWith(line, "- ") && ':' in line {
        projects := projects + [line[2..]];
      } else if inProjectsSection && (StartsWith(line, "Formação") || StartsWith(line, "Habilidades")) {
        inProjectsSection := false;
      }
    }
    assert lines[..|lines|] == lines;
    return Take(projects, 3);
  }

  /** `_extract_certifications`, loop by loop. */
  method ExtractCertifications(text: string) returns (certs: seq<string>)
    ensures certs == Scan(Certifications, Split(text, '\n')).items
  {
    var lines := Split(text, '\n');
    certs := [];
    var inCertSection := false;
    for i := 0 to |lines|
      invariant Section(certs, inCertSection) == Scan(Certifications, lines[..i])
    {
      assert lines[..i + 1][..i] == lines[..i];
      var line := Trim(lines[i]);
      if Contains(Lower(line), "certificaç") {
        inCertSection := true;
        continue;
      } else if inCertSection && StartsWith(line, "- ") {
        certs := certs + [line[2..]];
      } else if inCertSection && line != "" && !StartsWith(line, "- ") {
        inCertSection := false;
      }
    }
    assert lines[..|lines|] == lines;
  }
}
