/** The pure helpers of ai-job-backend/src/services/aiService.js: code-fence
    removal, `parseJsonFromText`, `countLines`, the two `normalizeParsed`
    record normalisers and the parse-and-normalise step of
    `simulateInterview`. `JSON.parse` is the parameter `parse`: `None` means
    it throws. */
module AiParsing {
  import opened Wrappers
  import opened Text
  import opened JsonValue

  const Fence: string := "```"

  type Parser = string -> Option<Json>

  /*************************************************************************
   * Code fences: /```(?:json)?\s*([\s\S]*?)\s*```/i
   *************************************************************************/

  /** One match of the fence pattern: it spans `start..end`, and the
      captured group is `group`. */
  datatype FenceMatch = FenceMatch(start: nat, group: string, end: nat)

  /** The (case-insensitive) language tag `json` follows at index `a`. */
  predicate JsonTagAt(s: string, a: nat) {
    a + 4 <= |s| && Lower(s[a..a + 4]) == "json"
  }

  /** The leftmost match of the fence pattern: the first "```", an optional
      `json` tag, the whitespace after it, then the shortest text up to the
      next "```", with its trailing whitespace left outside the group. */
  function MatchFence(s: string): (m: Option<FenceMatch>)
    ensures m.Some? ==> m.value.start + 6 <= m.value.end <= |s|
    ensures m.Some? ==> OccursAt(s, Fence, m.value.start) && OccursAt(s, Fence, m.value.end - 3)
    ensures FindFrom(s, Fence, 0).None? ==> m.None?
  {
    match FindFrom(s, Fence, 0)
    case None => None
    case Some(i) =>
      var c := GroupStart(s, i + 3);
      match FindFrom(s, Fence, c)
      case None => None
      case Some(q) => Some(FenceMatch(i, TrimEnd(s[c..q]), q + 3))
  }

  /** Where the captured group starts when the opening fence ends at `a`:
      after the optional tag and the whitespace that follows. */
  function GroupStart(s: string, a: nat): (c: nat)
    requires a <= |s|
    ensures a <= c <= |s|
  {
    var b := if JsonTagAt(s, a) then a + 4 else a;
    b + LeadingWs(s[b..])
  }

  /** `text.replace(fencePattern, "$1")` with the `g` flag: every fence pair
      is replaced by its captured group, left to right. */
  function StripFences(s: string): (r: string)
    ensures MatchFence(s).None? ==> r == s
    decreases |s|
  {
    match MatchFence(s)
    case None => s
    case Some(m) => s[..m.start] + m.group + StripFences(s[m.end..])
  }

  /** The same replacement without the `g` flag: only the first pair. */
  function StripFirstFence(s: string): (r: string)
    ensures MatchFence(s).None? ==> r == s
  {
    match MatchFence(s)
    case None => s
    case Some(m) => s[..m.start] + m.group + s[m.end..]
  }

  /** Text without a backtick holds no fence, so both replacements leave it
      unchanged. */
  lemma NoBacktickNoFence(s: string)
    requires '`' !in s
    ensures MatchFence(s).None?
    ensures StripFences(s) == s && StripFirstFence(s) == s
  {
    forall k | 0 <= k && k + 3 <= |s| ensures !OccursAt(s, Fence, k) {
      assert s[k..k + 3][0] == s[k];
    }
  }

  /** Whether the pattern takes a `json` tag after the opening fence. */
  lemma TagTest(tag: string, inner: string)
    requires '`' !in inner
    requires (|tag| == 4 && Lower(tag) == "json") || (tag == "" && !StartsWith(Lower(inner), "json"))
    ensures JsonTagAt(Fence + tag + inner + Fence, 3) <==> tag != ""
  {
    var s := Fence + tag + inner + Fence;
    if tag == "" {
      if |inner| >= 4 {
        assert s[3..7] == inner[..4];
        LowerSlice(inner, 0, 4);
      } else {
        assert s[3 + |inner|] == '`';
        assert 7 <= |s| ==> Lower(s[3..7])[|inner|] == '`';
      }
    } else {
      assert s[3..7] == tag;
    }
  }

  /** Text after the leading whitespace decides `LeadingWs`, so appending a
      text that starts with a non-blank character does not change it. */
  lemma LeadingWsOfPaddedRight(a: string, b: string)
    requires |b| > 0 && !IsWs(b[0])
    ensures LeadingWs(a + b) == LeadingWs(a)
  {
    var n := LeadingWs(a);
    if n < |a| {
      assert (a + b)[n] == a[n];
    } else {
      assert (a + b)[n] == b[0];
    }
    assert forall k :: 0 <= k < n ==> (a + b)[k] == a[k];
  }

  /** `FindFrom` returns the occurrence that has no other before it. */
  lemma FindFromIs(h: string, n: string, from: nat, e: nat)
    requires from <= e && OccursAt(h, n, e)
    requires forall k :: from <= k < e ==> !OccursAt(h, n, k)
    ensures FindFrom(h, n, from) == Some(e)
  {
  }

  /** No fence starts inside the inner text, since it has no backtick. */
  lemma NoFenceWithin(s: string, b: nat, inner: string)
    requires b + |inner| <= |s| && s[b..b + |inner|] == inner && '`' !in inner
    ensures forall k :: b <= k < b + |inner| ==> !OccursAt(s, Fence, k)
  {
    forall k | b <= k < b + |inner| ensures !OccursAt(s, Fence, k) {
      if k + 3 <= |s| {
        assert s[k..k + 3][0] == s[k] == inner[k - b];
      }
    }
  }

  /** After an inner text without backticks, the next fence is the one
      that follows it. */
  lemma ClosingFence(s: string, b: nat, inner: string, c: nat)
    requires b <= |s| && s[b..] == inner + Fence && '`' !in inner
    requires b <= c <= b + |inner|
    ensures FindFrom(s, Fence, c) == Some(b + |inner|)
  {
    assert s[b..b + |inner|] == inner;
    NoFenceWithin(s, b, inner);
    assert OccursAt(s, Fence, b + |inner|);
    FindFromIs(s, Fence, c, b + |inner|);
  }

  /** The match of a text that opens with a fence is decided by where
      its group starts and where the next fence is. */
  lemma MatchFenceAt(s: string, c: nat, e: nat)
    requires 3 <= c <= e && e + 3 <= |s|
    requires FindFrom(s, Fence, 0) == Some(0)
    requires GroupStart(s, 3) == c
    requires FindFrom(s, Fence, c) == Some(e)
    ensures MatchFence(s) == Some(FenceMatch(0, TrimEnd(s[c..e]), e + 3))
  {
  }

  /** After the opening fence and a tag that the pattern takes (`b == 7`)
      or not (`b == 3`), the group starts after the leading whitespace of
      what follows. */
  lemma GroupStartAfterTag(s: string, b: nat, inner: string)
    requires (b == 7 && JsonTagAt(s, 3)) || (b == 3 && !JsonTagAt(s, 3))
    requires b <= |s| && s[b..] == inner + Fence
    ensures GroupStart(s, 3) == b + LeadingWs(inner)
  {
    LeadingWsOfPaddedRight(inner, Fence);
  }

  /** The match found in a text that opens with a fence, continues with a
      tag, and then holds `inner` and the closing fence: the group starts
      at `c`, after the leading whitespace of `inner`, and ends at the
      closing fence `e`, less the trailing whitespace. */
  lemma MatchAfterTag(s: string, b: nat, inner: string, c: nat, e: nat)
    requires FindFrom(s, Fence, 0) == Some(0) && '`' !in inner
    requires 3 <= b <= |s| && s[b..] == inner + Fence
    requires GroupStart(s, 3) == c && c == b + LeadingWs(inner) && e == b + |inner|
    ensures c <= e <= |s|
    ensures MatchFence(s) == Some(FenceMatch(0, TrimEnd(s[c..e]), e + 3))
  {
    ClosingFence(s, b, inner, c);
    MatchFenceAt(s, c, e);
  }

  /** A fenced text opens with a fence, and the inner text starts after
      the tag. */
  lemma FencedOpening(s: string, tag: string, inner: string)
    requires |tag| <= 4 && s == Fence + tag + inner + Fence
    ensures FindFrom(s, Fence, 0) == Some(0)
    ensures s[3 + |tag|..] == inner + Fence
  {
    assert s[0..3] == Fence;
    FindFromIs(s, Fence, 0, 0);
  }

  /** In a fenced text the group starts after the tag and the leading
      whitespace of the inner text. */
  lemma FencedGroupStart(s: string, tag: string, inner: string)
    requires '`' !in inner
    requires (|tag| == 4 && Lower(tag) == "json") || (tag == "" && !StartsWith(Lower(inner), "json"))
    requires s == Fence + tag + inner + Fence
    ensures GroupStart(s, 3) == 3 + |tag| + LeadingWs(inner)
  {
    TagTest(tag, inner);
    assert s[3 + |tag|..] == inner + Fence;
    GroupStartAfterTag(s, 3 + |tag|, inner);
  }

  /** The match found in a fenced text. */
  lemma MatchOfFenced(s: string, tag: string, inner: string, c: nat, e: nat)
    requires '`' !in inner
    requires (|tag| == 4 && Lower(tag) == "json") || (tag == "" && !StartsWith(Lower(inner), "json"))
    requires s == Fence + tag + inner + Fence
    requires c == 3 + |tag| + LeadingWs(inner) && e == 3 + |tag| + |inner|
    ensures c <= e && e + 3 == |s|
    ensures MatchFence(s) == Some(FenceMatch(0, TrimEnd(s[c..e]), e + 3))
  {
    FencedOpening(s, tag, inner);
    FencedGroupStart(s, tag, inner);
    MatchAfterTag(s, 3 + |tag|, inner, c, e);
  }

  /** A text whose first fence pair ends the text loses exactly that pair
      under both replacements. */
  lemma StripLastPair(s: string, m: FenceMatch)
    requires MatchFence(s) == Some(m) && m.end == |s|
    ensures StripFences(s) == s[..m.start] + m.group
    ensures StripFirstFence(s) == s[..m.start] + m.group
  {
    assert s[m.end..] == "";
    assert FindFrom("", Fence, 0).None?;
  }

  /** A fence pair around an inner text without backticks reduces to the
      trimmed inner text; the tag is either a case variant of `json` or
      absent (and then the inner text must not itself start with `json`,
      which the pattern would take for the tag). */
  lemma FencedReducesToInner(tag: string, inner: string)
    requires '`' !in inner
    requires (|tag| == 4 && Lower(tag) == "json") || (tag == "" && !StartsWith(Lower(inner), "json"))
    ensures StripFences(Fence + tag + inner + Fence) == Trim(inner)
    ensures StripFirstFence(Fence + tag + inner + Fence) == Trim(inner)
  {
    var s := Fence + tag + inner + Fence;
    var c := 3 + |tag| + LeadingWs(inner);
    var e := 3 + |tag| + |inner|;
    MatchOfFenced(s, tag, inner, c, e);
    var m := FenceMatch(0, TrimEnd(s[c..e]), e + 3);
    StripLastPair(s, m);
    assert s[c..e] == inner[LeadingWs(inner)..];
    TrimIsTrimEnd(inner);
  }

  /*************************************************************************
   * parseJsonFromText (aiService.js:231-255, repeated at 573-589)
   *************************************************************************/

  /** The text the parser works on: fences removed, then trimmed. */
  function Cleaned(text: string): string {
    Trim(StripFences(text))
  }

  /** `c.slice(c.indexOf("{"), c.lastIndexOf("}") + 1)`, when both braces
      occur and the last `}` comes after the first `{`. */
  function BraceSpan(c: string): (r: Option<string>)
    ensures r.Some? <==> '{' in c && '}' in c && LastIndexOf(c, '}') > IndexOf(c, '{')
    ensures r.Some? ==> r.value == c[IndexOf(c, '{')..LastIndexOf(c, '}') + 1]
    ensures r.Some? ==> |r.value| >= 2 && r.value[0] == '{' && r.value[|r.value| - 1] == '}'
  {
    var first := IndexOf(c, '{');
    var last := LastIndexOf(c, '}');
    if first != -1 && last != -1 && last > first then Some(c[first..last + 1]) else None
  }

  /** `parseJsonFromText(text)`: null for blank text; otherwise the brace
      span is tried first, then the whole cleaned text, and null when both
      fail. The result is a JSON value, `JNull` standing for `null`. */
  function ParseJsonFromText(text: string, parse: Parser): (r: Json)
    ensures Blank(text) ==> r == JNull
  {
    if Blank(text) then JNull
    else
      var cleaned := Cleaned(text);
      var span := BraceSpan(cleaned);
      if span.Some? && parse(span.value).Some? then parse(span.value).value
      else parse(cleaned).GetOr(JNull)
  }

  /** The parse order of non-blank text: the brace span when it parses,
      else the whole cleaned text when that parses, else null. */
  lemma ParseOrder(text: string, parse: Parser)
    requires !Blank(text)
    ensures var span := BraceSpan(Cleaned(text));
            && (span.Some? && parse(span.value).Some? ==> ParseJsonFromText(text, parse) == parse(span.value).value)
            && ((span.None? || parse(span.value).None?) && parse(Cleaned(text)).Some?
                ==> ParseJsonFromText(text, parse) == parse(Cleaned(text)).value)
            && ((span.None? || parse(span.value).None?) && parse(Cleaned(text)).None?
                ==> ParseJsonFromText(text, parse) == JNull)
  {
  }

  /** The brace span is fixed by the first `{` and the last `}`. */
  lemma BraceSpanAt(c: string, f: nat, l: nat)
    requires f < l < |c| && c[f] == '{' && c[l] == '}'
    requires forall k :: 0 <= k < f ==> c[k] != '{'
    requires forall k :: l < k < |c| ==> c[k] != '}'
    ensures BraceSpan(c) == Some(c[f..l + 1])
  {
    var fi := IndexOf(c, '{');
    var li := LastIndexOf(c, '}');
    assert c[f] in c && c[l] in c;
    assert fi >= f;
    assert li <= l;
    forall k | 0 <= k < fi ensures c[k] != '{' {
      assert c[..fi][k] == c[k];
    }
    forall k | li < k < |c| ensures c[k] != '}' {
      assert c[li + 1..][k - li - 1] == c[k];
    }
  }

  /** Trimming keeps a core that neither starts nor ends with whitespace:
      it sits inside the trimmed text at offset `i - LeadingWs(s)`. */
  lemma TrimKeepsCore(s: string, i: nat, j: nat)
    requires i < j <= |s| && !IsWs(s[i]) && !IsWs(s[j - 1])
    ensures LeadingWs(s) <= i && j <= LeadingWs(s) + |Trim(s)|
  {
  }

  /** The brace span of an infix `c == s[n..n + |c|]` that holds the
      first `{` at `i` and the last `}` before `j`. */
  lemma SpanOfInfix(s: string, c: string, n: nat, i: nat, j: nat)
    requires n <= i && i + 1 < j <= n + |c| <= |s| && c == s[n..n + |c|]
    requires s[i] == '{' && s[j - 1] == '}'
    requires forall k :: 0 <= k < i ==> s[k] != '{'
    requires forall k :: j <= k < |s| ==> s[k] != '}'
    ensures BraceSpan(c) == Some(s[i..j])
  {
    InfixBraces(s, c, n, i, j);
    BraceSpanAt(c, i - n, j - 1 - n);
    InfixSlice(s, c, n, i, j);
  }

  /** The braces of the infix, seen from inside it. */
  lemma InfixBraces(s: string, c: string, n: nat, i: nat, j: nat)
    requires n <= i && i + 1 < j <= n + |c| <= |s| && c == s[n..n + |c|]
    requires s[i] == '{' && s[j - 1] == '}'
    requires forall k :: 0 <= k < i ==> s[k] != '{'
    requires forall k :: j <= k < |s| ==> s[k] != '}'
    ensures c[i - n] == '{' && c[j - 1 - n] == '}'
    ensures forall k :: 0 <= k < i - n ==> c[k] != '{'
    ensures forall k :: j - 1 - n < k < |c| ==> c[k] != '}'
  {
    forall k | 0 <= k < |c| ensures c[k] == s[n + k] {
    }
  }

  /** A slice of the infix is the same slice of the whole text. */
  lemma InfixSlice(s: string, c: string, n: nat, i: nat, j: nat)
    requires n <= i <= j <= n + |c| <= |s| && c == s[n..n + |c|]
    ensures c[i - n..j - n] == s[i..j]
  {
    forall k | 0 <= k < j - i ensures c[i - n..j - n][k] == s[i..j][k] {
      assert c[i - n + k] == s[i + k];
    }
  }

  /** The brace span of a trimmed text runs from the first `{` to the last
      `}` of the untrimmed text. */
  lemma SpanOfTrimmed(s: string, i: nat, j: nat)
    requires i + 1 < j <= |s| && s[i] == '{' && s[j - 1] == '}'
    requires forall k :: 0 <= k < i ==> s[k] != '{'
    requires forall k :: j <= k < |s| ==> s[k] != '}'
    ensures BraceSpan(Trim(s)) == Some(s[i..j])
  {
    TrimKeepsCore(s, i, j);
    SpanOfInfix(s, Trim(s), LeadingWs(s), i, j);
  }

  /** A response that only wraps a JSON object in prose (no `{` before it,
      no `}` after it, no backticks) parses as that object. */
  lemma ProseAroundObject(pre: string, obj: string, post: string, parse: Parser)
    requires |obj| >= 2 && obj[0] == '{' && obj[|obj| - 1] == '}'
    requires '{' !in pre && '}' !in post
    requires '`' !in pre + obj + post
    requires parse(obj).Some?
    ensures ParseJsonFromText(pre + obj + post, parse) == parse(obj).value
  {
    var s := pre + obj + post;
    var i := |pre|;
    var j := |pre| + |obj|;
    NoBacktickNoFence(s);
    assert s[i..j] == obj;
    forall k | 0 <= k < i ensures s[k] != '{' {
      assert s[k] == pre[k];
    }
    forall k | j <= k < |s| ensures s[k] != '}' {
      assert s[k] == post[k - j];
    }
    SpanOfTrimmed(s, i, j);
    assert !Blank(s) by {
      TrimKeepsCore(s, i, j);
    }
  }

  /** Fenced and unfenced responses parse identically: wrapping the text in
      "```json ... ```" (or "``` ... ```") does not change the result. */
  lemma FencedParsesLikeUnfenced(tag: string, inner: string, parse: Parser)
    requires '`' !in inner && !Blank(inner)
    requires (|tag| == 4 && Lower(tag) == "json") || (tag == "" && !StartsWith(Lower(inner), "json"))
    ensures ParseJsonFromText(Fence + tag + inner + Fence, parse) == ParseJsonFromText(inner, parse)
  {
    FencedCleaned(tag, inner);
    FencedNotBlank(tag, inner);
    SameCleanedSameParse(Fence + tag + inner + Fence, inner, parse);
  }

  lemma FencedCleaned(tag: string, inner: string)
    requires '`' !in inner
    requires (|tag| == 4 && Lower(tag) == "json") || (tag == "" && !StartsWith(Lower(inner), "json"))
    ensures Cleaned(Fence + tag + inner + Fence) == Cleaned(inner)
  {
    FencedReducesToInner(tag, inner);
    NoBacktickNoFence(inner);
    TrimIdempotent(inner);
  }

  lemma FencedNotBlank(tag: string, inner: string)
    ensures !Blank(Fence + tag + inner + Fence)
  {
    var s := Fence + tag + inner + Fence;
    BlankIffAllWs(s);
    assert !IsWs(s[0]);
  }

  /** Only the cleaned text matters to the parse of a non-blank text. */
  lemma SameCleanedSameParse(a: string, b: string, parse: Parser)
    requires !Blank(a) && !Blank(b) && Cleaned(a) == Cleaned(b)
    ensures ParseJsonFromText(a, parse) == ParseJsonFromText(b, parse)
  {
  }

  /*************************************************************************
   * countLines (aiService.js:328-332 and 638-642)
   *************************************************************************/

  /** Number of lines that are not blank. */
  function CountNonBlank(lines: seq<string>): nat {
    if |lines| == 0 then 0
    else (if Blank(lines[0]) then 0 else 1) + CountNonBlank(lines[1..])
  }

  /** `s.split("\n").map(l => l.trim()).filter(l => l.length > 0).length` */
  function CountLines(s: string): (n: nat)
    ensures n <= |Split(s, '\n')|
  {
    CountNonBlankBound(Split(s, '\n'));
    CountNonBlank(Split(s, '\n'))
  }

  lemma {:induction false} CountNonBlankBound(lines: seq<string>)
    ensures CountNonBlank(lines) <= |lines|
  {
    if |lines| > 0 {
      CountNonBlankBound(lines[1..]);
    }
  }

  lemma {:induction false} CountNonBlankAppend(a: seq<string>, b: seq<string>)
    ensures CountNonBlank(a + b) == CountNonBlank(a) + CountNonBlank(b)
  {
    if |a| == 0 {
      assert a + b == b;
    } else {
      assert (a + b)[0] == a[0];
      assert (a + b)[1..] == a[1..] + b;
      CountNonBlankAppend(a[1..], b);
    }
  }

  /** Splitting `a + "\n" + b` splits `a` and `b` separately. */
  lemma {:induction false} SplitAround(a: string, b: string)
    ensures Split(a + "\n" + b, '\n') == Split(a, '\n') + Split(b, '\n')
    decreases |a|
  {
    var i := IndexOf(a, '\n');
    if i < 0 {
      SplitConcat(a, b, '\n');
    } else {
      var s := a + "\n" + b;
      assert s[..i] == a[..i];
      assert s[i] == '\n';
      var j := IndexOf(s, '\n');
      forall k | 0 <= k < j ensures s[k] != '\n' {
        assert s[..j][k] == s[k];
      }
      assert j <= i;
      forall k | 0 <= k < i ensures s[k] != '\n' {
        assert s[k] == a[..i][k];
      }
      assert j == i;
      assert s[i + 1..] == a[i + 1..] + "\n" + b;
      SplitAround(a[i + 1..], b);
    }
  }

  /** Line counts add up across a line break. */
  lemma CountLinesSplit(a: string, b: string)
    ensures CountLines(a + "\n" + b) == CountLines(a) + CountLines(b)
  {
    SplitAround(a, b);
    CountNonBlankAppend(Split(a, '\n'), Split(b, '\n'));
  }

  /** A string is all whitespace exactly when both sides of a whitespace
      character in it are. */
  lemma AllWsAround(s: string, i: nat)
    requires i < |s| && IsWs(s[i])
    ensures AllWs(s) <==> AllWs(s[..i]) && AllWs(s[i + 1..])
  {
    assert forall k :: 0 <= k < i ==> s[..i][k] == s[k];
    assert forall k :: i < k < |s| ==> s[i + 1..][k - i - 1] == s[k];
  }

  lemma CountNonBlankSingle(line: string)
    ensures CountNonBlank([line]) == if Blank(line) then 0 else 1
  {
    assert [line][1..] == [];
  }

  /** Blank text (including "") has no lines, and text with a non-blank
      character has at least one. */
  lemma {:induction false} CountLinesZeroIffBlank(s: string)
    ensures CountLines(s) == 0 <==> Blank(s)
    decreases |s|
  {
    BlankIffAllWs(s);
    var i := IndexOf(s, '\n');
    if i < 0 {
      CountNonBlankSingle(s);
    } else {
      var a := s[..i];
      var b := s[i + 1..];
      assert Split(s, '\n') == [a] + Split(b, '\n');
      CountNonBlankAppend([a], Split(b, '\n'));
      CountNonBlankSingle(a);
      CountLinesZeroIffBlank(b);
      BlankIffAllWs(a);
      BlankIffAllWs(b);
      AllWsAround(s, i);
    }
  }

  /** `countLines(v)` on the JSON value of a record field: `(v || "")`
      gives 0 for a falsy value, and `.split` on a truthy value that is not
      a string throws (`None`). */
  function JsCountLines(v: Json): (r: Option<nat>)
    ensures !Truthy(v) ==> r == Some(0)
    ensures v.JStr? ==> r == Some(CountLines(v.s))
    ensures Truthy(v) && !v.JStr? ==> r.None?
  {
    if v.JStr? then
      CountLinesZeroIffBlank(v.s);
      BlankIffAllWs(v.s);
      Some(CountLines(v.s))
    else if !Truthy(v) then Some(0)
    else None
  }

  /** The length contract: a present primary text with 20 to 50 lines. */
  predicate WithinLineBounds(v: Json, lines: nat) {
    Truthy(v) && 20 <= lines <= 50
  }

  /*************************************************************************
   * normalizeParsed of generateOptimizedResume (aiService.js:258-300)
   *************************************************************************/

  datatype OptimizeResult = OptimizeResult(
    optimizedResume: Json,
    originalScore: Option<int>,
    optimizedScore: Option<int>,
    strengths: seq<string>,
    gaps: seq<string>,
    behavioralAnalysis: Json)

  /** The all-null/empty record. */
  const EmptyOptimize := OptimizeResult(JNull, None, None, [], [], JNull)

  const OptimizedResumeKeys: seq<string> :=
    ["optimizedResume", "optimized_resume", "optimizedResumeMarkdown", "optimized_resume_markdown", "optimized_resume_text"]

  const BehavioralKeys: seq<string> := ["behavioralAnalysis", "behavioral_analysis", "behavioral"]

  /** A score survives only when it is a number; camelCase is checked
      before snake_case. */
  function Score(p: Json, camel: string, snake: string): (r: Option<int>)
    ensures NumberOf(Prop(p, camel)).Some? ==> r == NumberOf(Prop(p, camel))
    ensures NumberOf(Prop(p, camel)).None? ==> r == NumberOf(Prop(p, snake))
  {
    if NumberOf(Prop(p, camel)).Some? then NumberOf(Prop(p, camel)) else NumberOf(Prop(p, snake))
  }

  /** `normalizeParsed(parsed)` of the optimize flow. For a value that is
      falsy or not an object, the source reads three aliases through `?.`,
      which are undefined on such a value, so every field is empty. */
  function NormalizeOptimize(p: Json): (r: OptimizeResult)
    ensures !Truthy(p) || !IsObject(p) ==> r == EmptyOptimize
    ensures forall i :: FirstPresent(p, OptimizedResumeKeys, i) ==> r.optimizedResume == Prop(p, OptimizedResumeKeys[i]).value
    ensures (forall i :: 0 <= i < |OptimizedResumeKeys| ==> Nullish(Prop(p, OptimizedResumeKeys[i]))) ==> r.optimizedResume == JNull
    ensures forall i :: FirstPresent(p, BehavioralKeys, i) ==> r.behavioralAnalysis == Prop(p, BehavioralKeys[i]).value
    ensures (forall i :: 0 <= i < |BehavioralKeys| ==> Nullish(Prop(p, BehavioralKeys[i]))) ==> r.behavioralAnalysis == JNull
    ensures r.originalScore == Score(p, "originalScore", "original_score")
    ensures r.optimizedScore == Score(p, "optimizedScore", "optimized_score")
    ensures r.strengths == StringList(Prop(p, "strengths")) && r.gaps == StringList(Prop(p, "gaps"))
  {
    if !Truthy(p) || !IsObject(p) then
      OptimizeResult(Coalesce(p, OptimizedResumeKeys[..3], JNull), None, None, [], [], JNull)
    else
      OptimizeResult(
        Coalesce(p, OptimizedResumeKeys, JNull),
        Score(p, "originalScore", "original_score"),
        Score(p, "optimizedScore", "optimized_score"),
        StringList(Prop(p, "strengths")),
        StringList(Prop(p, "gaps")),
        Coalesce(p, BehavioralKeys, JNull))
  }

  /** The JSON object a well-behaved model answers with for `r`, under the
      first (camelCase) alias of every field. */
  function OptimizeToJson(r: OptimizeResult): Json {
    JObj(map[
      "optimizedResume" := r.optimizedResume,
      "originalScore" := if r.originalScore.Some? then JNum(r.originalScore.value) else JNull,
      "optimizedScore" := if r.optimizedScore.Some? then JNum(r.optimizedScore.value) else JNull,
      "strengths" := StringsToJson(r.strengths),
      "gaps" := StringsToJson(r.gaps),
      "behavioralAnalysis" := r.behavioralAnalysis])
  }

  /** Normalising the object that encodes a record gives the record back. */
  lemma NormalizeOptimizeRoundTrip(r: OptimizeResult)
    ensures NormalizeOptimize(OptimizeToJson(r)) == r
  {
    var n := NormalizeOptimize(OptimizeToJson(r));
    RoundTripResume(r);
    RoundTripScores(r);
    RoundTripLists(r);
    RoundTripBehavioral(r);
    assert n == OptimizeResult(n.optimizedResume, n.originalScore, n.optimizedScore, n.strengths, n.gaps, n.behavioralAnalysis);
  }

  lemma RoundTripResume(r: OptimizeResult)
    ensures NormalizeOptimize(OptimizeToJson(r)).optimizedResume == r.optimizedResume
  {
    var p := OptimizeToJson(r);
    if r.optimizedResume.JNull? {
      assert forall i :: 0 <= i < |OptimizedResumeKeys| ==> Nullish(Prop(p, OptimizedResumeKeys[i]));
    } else {
      assert FirstPresent(p, OptimizedResumeKeys, 0);
    }
  }

  lemma RoundTripScores(r: OptimizeResult)
    ensures NormalizeOptimize(OptimizeToJson(r)).originalScore == r.originalScore
    ensures NormalizeOptimize(OptimizeToJson(r)).optimizedScore == r.optimizedScore
  {
    var p := OptimizeToJson(r);
    assert Prop(p, "original_score") == None by {
      assert "original_score" !in p.fields;
    }
    assert Prop(p, "optimized_score") == None by {
      assert "optimized_score" !in p.fields;
    }
  }

  lemma RoundTripLists(r: OptimizeResult)
    ensures NormalizeOptimize(OptimizeToJson(r)).strengths == r.strengths
    ensures NormalizeOptimize(OptimizeToJson(r)).gaps == r.gaps
  {
    StringListOfStrings(r.strengths);
    StringListOfStrings(r.gaps);
  }

  lemma RoundTripBehavioral(r: OptimizeResult)
    ensures NormalizeOptimize(OptimizeToJson(r)).behavioralAnalysis == r.behavioralAnalysis
  {
    var p := OptimizeToJson(r);
    if r.behavioralAnalysis.JNull? {
      assert forall i :: 0 <= i < |BehavioralKeys| ==> Nullish(Prop(p, BehavioralKeys[i]));
    } else {
      assert FirstPresent(p, BehavioralKeys, 0);
    }
  }

  /** Scores are rounded (the identity on integers) and clamped to 0..100. */
  function ClampScore(s: Option<int>): (r: Option<int>)
    ensures r.Some? <==> s.Some?
    ensures r.Some? ==> 0 <= r.value <= 100
    ensures s.Some? && 0 <= s.value <= 100 ==> r == s
  {
    if s.Some? then Some(if s.value < 0 then 0 else if s.value > 100 then 100 else s.value) else None
  }

  /*************************************************************************
   * normalizeParsed of generateNewResume (aiService.js:592-618)
   *************************************************************************/

  datatype Changes = Changes(added: seq<string>, removed: seq<string>, reorganized: seq<string>)

  datatype NewResumeResult = NewResumeResult(newResume: Option<string>, changes: Changes, explanation: Option<string>)

  const EmptyNewResume := NewResumeResult(None, Changes([], [], []), None)

  const NewResumeKeys: seq<string> := ["newResume", "resume"]
  const ExplanationKeys: seq<string> := ["explanation", "reason", "rationale"]

  /** `(x ?? "").toString().trim() || null` once the alias chain is resolved. */
  function TrimmedOrNull(v: Json): (r: Option<string>)
    ensures r.Some? ==> r.value != "" && Trimmed(r.value)
    ensures r.None? <==> Blank(JsString(v))
  {
    var t := Trim(JsString(v));
    TrimIdempotent(JsString(v));
    if t == "" then None else Some(t)
  }

  /** `parsed.changes?.[key]` */
  function ChangesEntry(p: Json, key: string): Option<Json> {
    if Nullish(Prop(p, "changes")) then None else Prop(Prop(p, "changes").value, key)
  }

  /** `normalizeParsed(parsed)` of the rewrite flow. */
  function NormalizeNewResume(p: Json): (r: NewResumeResult)
    ensures !Truthy(p) || !IsObject(p) ==> r == EmptyNewResume
    ensures r.newResume.Some? ==> r.newResume.value != "" && Trimmed(r.newResume.value)
    ensures r.explanation.Some? ==> r.explanation.value != "" && Trimmed(r.explanation.value)
    ensures IsObject(p) ==> r.newResume == TrimmedOrNull(Coalesce(p, NewResumeKeys, JStr("")))
    ensures IsObject(p) ==> r.explanation == TrimmedOrNull(Coalesce(p, ExplanationKeys, JStr("")))
    ensures IsObject(p) ==> r.changes.added == StringList(ChangesEntry(p, "added"))
    ensures IsObject(p) ==> r.changes.removed == StringList(ChangesEntry(p, "removed"))
    ensures IsObject(p) ==> r.changes.reorganized == StringList(ChangesEntry(p, "reorganized"))
  {
    if !Truthy(p) || !IsObject(p) then EmptyNewResume
    else
      NewResumeResult(
        TrimmedOrNull(Coalesce(p, NewResumeKeys, JStr(""))),
        Changes(
          StringList(ChangesEntry(p, "added")),
          StringList(ChangesEntry(p, "removed")),
          StringList(ChangesEntry(p, "reorganized"))),
        TrimmedOrNull(Coalesce(p, ExplanationKeys, JStr(""))))
  }

  /** The object a well-behaved model answers with for `r`. */
  function NewResumeToJson(r: NewResumeResult): Json {
    JObj(map[
      "newResume" := TextToJson(r.newResume),
      "changes" := JObj(map[
        "added" := StringsToJson(r.changes.added),
        "removed" := StringsToJson(r.changes.removed),
        "reorganized" := StringsToJson(r.changes.reorganized)]),
      "explanation" := TextToJson(r.explanation)])
  }

  /** The JSON text for an optional trimmed text, and its coercion back. */
  function TextToJson(o: Option<string>): Json {
    if o.Some? then JStr(o.value) else JNull
  }

  lemma TrimmedOrNullOfText(o: Option<string>)
    requires o.Some? ==> o.value != "" && Trimmed(o.value)
    ensures TrimmedOrNull(if o.Some? then JStr(o.value) else JStr("")) == o
  {
    BlankIffAllWs("");
    if o.Some? {
      TrimOfTrimmed(o.value);
    }
  }

  /** The alias chain over an object whose first alias holds `TextToJson(o)`
      and whose other aliases are absent. */
  lemma CoalesceFirstAlias(p: Json, keys: seq<string>, o: Option<string>)
    requires |keys| >= 1 && p.JObj? && keys[0] in p.fields && p.fields[keys[0]] == TextToJson(o)
    requires forall i :: 1 <= i < |keys| ==> keys[i] !in p.fields
    ensures Coalesce(p, keys, JStr("")) == if o.Some? then JStr(o.value) else JStr("")
  {
    if o.Some? {
      assert FirstPresent(p, keys, 0);
    } else {
      assert forall i :: 0 <= i < |keys| ==> Nullish(Prop(p, keys[i]));
    }
  }

  /** Normalisation gives back every record whose texts are already trimmed
      and non-empty. */
  lemma NormalizeNewResumeRoundTrip(r: NewResumeResult)
    requires r.newResume.Some? ==> r.newResume.value != "" && Trimmed(r.newResume.value)
    requires r.explanation.Some? ==> r.explanation.value != "" && Trimmed(r.explanation.value)
    ensures NormalizeNewResume(NewResumeToJson(r)) == r
  {
    var p := NewResumeToJson(r);
    assert ChangesEntry(p, "added") == Some(StringsToJson(r.changes.added));
    assert ChangesEntry(p, "removed") == Some(StringsToJson(r.changes.removed));
    assert ChangesEntry(p, "reorganized") == Some(StringsToJson(r.changes.reorganized));
    StringListOfStrings(r.changes.added);
    StringListOfStrings(r.changes.removed);
    StringListOfStrings(r.changes.reorganized);
    CoalesceFirstAlias(p, NewResumeKeys, r.newResume);
    CoalesceFirstAlias(p, ExplanationKeys, r.explanation);
    TrimmedOrNullOfText(r.newResume);
    TrimmedOrNullOfText(r.explanation);
  }

  /*************************************************************************
   * Parse and normalise in simulateInterview (aiService.js:765-810)
   *************************************************************************/

  datatype QaPair = QaPair(question: string, answer: string)

  datatype InterviewResult = InterviewResult(qa: seq<QaPair>, interviewerQuestions: seq<Json>)

  const EmptyInterview := InterviewResult([], [])

  /** The fixed answer when the model's text is not usable JSON (its texts
      are written as short literals joined by `+`, which keeps the proofs
      that mention them cheap). */
  const InterviewFallback := InterviewResult(
    [ QaPair("Conte-nos sobre sua "
             + "experiência mais relevante "
             + "para essa vaga.",
             "Tenho experiência prática "
             + "em IA e desenvolvimento de "
             + "software, com projetos que "
             + "aplicaram NLP, pipelines e "
             + "integrações com APIs."),
      QaPair("Quais frameworks de NLP/LLM "
             + "você já utilizou?",
             "Trabalhei com LangChain, "
             + "Hugging Face, TensorFlow e "
             + "PyTorch em projetos de POCs "
             + "e produção."),
      QaPair("Como você entrega valor "
             + "imediato em projetos de IA?",
             "Priorizo entregar "
             + "experimentos que validem "
             + "hipóteses com dados reais, "
             + "automatizando rotinas e "
             + "integrando modelos ao fluxo "
             + "de negócio.") ],
    [ JStr("Como a empresa apoia o "
           + "desenvolvimento de carreira?"),
      JStr("Quais são os principais "
           + "desafios dessa equipe?"),
      JStr("Como é a cultura de "
           + "feedback dentro da "
           + "organização?") ])

  /** The fallback holds three filled pairs and three recruiter questions. */
  lemma FallbackShape()
    ensures |InterviewFallback.qa| == 3 && |InterviewFallback.interviewerQuestions| == 3
    ensures forall k :: 0 <= k < |InterviewFallback.qa| ==> Filled(InterviewFallback.qa[k])
  {
    var qa := InterviewFallback.qa;
    assert Filled(qa[0]) && Filled(qa[1]) && Filled(qa[2]);
  }

  const RecruiterQuestionKeys: seq<string> := ["interviewerQuestions", "questionsForRecruiter", "perguntasParaEntrevistador"]

  /** One entry of `parsed.qa` mapped to a trimmed pair: `question ??
      pergunta` and `answer ?? resposta`. */
  function QaOf(it: Json): (q: QaPair)
    ensures !Nullish(Prop(it, "question")) ==> q.question == Trim(JsString(it.fields["question"]))
    ensures Nullish(Prop(it, "question")) && !Nullish(Prop(it, "pergunta"))
            ==> q.question == Trim(JsString(it.fields["pergunta"]))
    ensures Nullish(Prop(it, "question")) && Nullish(Prop(it, "pergunta")) ==> q.question == ""
    ensures !Nullish(Prop(it, "answer")) ==> q.answer == Trim(JsString(it.fields["answer"]))
    ensures Nullish(Prop(it, "answer")) && !Nullish(Prop(it, "resposta"))
            ==> q.answer == Trim(JsString(it.fields["resposta"]))
    ensures Nullish(Prop(it, "answer")) && Nullish(Prop(it, "resposta")) ==> q.answer == ""
  {
    CoalescePair(it, "question", "pergunta", JStr(""));
    CoalescePair(it, "answer", "resposta", JStr(""));
    QaPair(Trim(JsString(Coalesce(it, ["question", "pergunta"], JStr("")))),
           Trim(JsString(Coalesce(it, ["answer", "resposta"], JStr("")))))
  }

  /** Both sides of the pair are non-empty. */
  predicate Filled(p: QaPair) {
    p.question != "" && p.answer != ""
  }

  /** The pairs kept from `parsed.qa`: those with both sides non-empty, in
      order. */
  function QaPairs(items: seq<Json>): (r: seq<QaPair>)
    ensures |r| <= |items|
    ensures forall k :: 0 <= k < |r| ==> Filled(r[k])
  {
    if |items| == 0 then []
    else
      var p := QaOf(items[0]);
      var rest := QaPairs(items[1..]);
      if Filled(p) then FilledCons(p, rest); [p] + rest else rest
  }

  /** `parsed.qa.map(...)`: one pair per entry. */
  function Pairs(items: seq<Json>): (ps: seq<QaPair>)
    ensures |ps| == |items| && forall j :: 0 <= j < |items| ==> ps[j] == QaOf(items[j])
  {
    seq(|items|, j requires 0 <= j < |items| => QaOf(items[j]))
  }

  /** `r` is taken from `ps` at the increasing positions `idx`, and these
      are exactly the positions of the filled pairs. */
  ghost predicate SelectedAt(ps: seq<QaPair>, r: seq<QaPair>, idx: seq<nat>) {
    && |idx| == |r|
    && (forall k :: 0 <= k < |idx| ==> idx[k] < |ps| && r[k] == ps[idx[k]])
    && (forall k, m :: 0 <= k < m < |idx| ==> idx[k] < idx[m])
    && (forall j :: 0 <= j < |ps| ==> (Filled(ps[j]) <==> j in idx))
  }

  /** Every position moved one entry on. */
  function Shift(idx: seq<nat>): (r: seq<nat>)
    ensures |r| == |idx| && forall k :: 0 <= k < |idx| ==> r[k] == idx[k] + 1
  {
    seq(|idx|, k requires 0 <= k < |idx| => idx[k] + 1)
  }

  /** The positions of the filled pairs, in order. */
  function FilledIndices(ps: seq<QaPair>): seq<nat> {
    if |ps| == 0 then []
    else if Filled(ps[0]) then [0] + Shift(FilledIndices(ps[1..]))
    else Shift(FilledIndices(ps[1..]))
  }

  /** `.map(...).filter(p => p.question && p.answer)`: the kept pairs are
      exactly the filled pairs of the entries, in the entries' order. */
  lemma {:induction false} QaPairsFilter(items: seq<Json>)
    ensures SelectedAt(Pairs(items), QaPairs(items), FilledIndices(Pairs(items)))
  {
    if |items| > 0 {
      var ps := Pairs(items);
      QaPairsFilter(items[1..]);
      assert ps[1..] == Pairs(items[1..]);
      SelectedStep(ps, QaPairs(items[1..]), FilledIndices(ps[1..]));
    }
  }

  /** One pair in front of a selection from the others. */
  lemma SelectedStep(ps: seq<QaPair>, r: seq<QaPair>, idx: seq<nat>)
    requires |ps| > 0 && SelectedAt(ps[1..], r, idx)
    ensures SelectedAt(ps, if Filled(ps[0]) then [ps[0]] + r else r,
                       if Filled(ps[0]) then [0] + Shift(idx) else Shift(idx))
  {
    ShiftedSelection(ps, r, idx);
    if Filled(ps[0]) {
      ConsSelection(ps, r, Shift(idx));
    }
  }

  /** Moving the positions one on selects the same pairs from `ps` as from
      its tail, and position 0 is not among them. */
  lemma ShiftedSelection(ps: seq<QaPair>, r: seq<QaPair>, idx: seq<nat>)
    requires |ps| > 0 && SelectedAt(ps[1..], r, idx)
    ensures var sh := Shift(idx);
            && |sh| == |r| && 0 !in sh
            && (forall k :: 0 <= k < |sh| ==> 0 < sh[k] < |ps| && r[k] == ps[sh[k]])
            && (forall k, m :: 0 <= k < m < |sh| ==> sh[k] < sh[m])
            && (forall j :: 0 < j < |ps| ==> (Filled(ps[j]) <==> j in sh))
  {
    var sh := Shift(idx);
    forall j | 0 < j < |ps|
      ensures Filled(ps[j]) <==> j in sh
    {
      assert ps[j] == ps[1..][j - 1];
      if j - 1 in idx {
        var k :| 0 <= k < |idx| && idx[k] == j - 1;
        assert sh[k] == j;
      }
      if j in sh {
        var k :| 0 <= k < |sh| && sh[k] == j;
        assert idx[k] == j - 1;
      }
    }
  }

  /** A filled first pair put in front of a selection that avoids 0. */
  lemma ConsSelection(ps: seq<QaPair>, r: seq<QaPair>, sh: seq<nat>)
    requires |ps| > 0 && Filled(ps[0])
    requires |sh| == |r| && 0 !in sh
    requires forall k :: 0 <= k < |sh| ==> 0 < sh[k] < |ps| && r[k] == ps[sh[k]]
    requires forall k, m :: 0 <= k < m < |sh| ==> sh[k] < sh[m]
    requires forall j :: 0 < j < |ps| ==> (Filled(ps[j]) <==> j in sh)
    ensures SelectedAt(ps, [ps[0]] + r, [0] + sh)
  {
    var r' := [ps[0]] + r;
    var sh' := [0] + sh;
    assert forall k :: 0 < k < |sh'| ==> r'[k] == r[k - 1] && sh'[k] == sh[k - 1];
    forall j | 0 < j < |ps| ensures j in sh' <==> j in sh {
      assert sh' == [0] + sh;
    }
  }

  lemma FilledCons(p: QaPair, rest: seq<QaPair>)
    requires Filled(p) && forall k :: 0 <= k < |rest| ==> Filled(rest[k])
    ensures forall k :: 0 <= k < |[p] + rest| ==> Filled(([p] + rest)[k])
  {
    forall k | 0 <= k < |[p] + rest| ensures Filled(([p] + rest)[k]) {
      if k > 0 {
        assert ([p] + rest)[k] == rest[k - 1];
      }
    }
  }

  /** The first recruiter-question alias that holds an array, else []. */
  function RecruiterQuestions(p: Json): (r: seq<Json>)
    ensures IsArray(Prop(p, "interviewerQuestions")) ==> r == Prop(p, "interviewerQuestions").value.items
    ensures !IsArray(Prop(p, "interviewerQuestions")) && IsArray(Prop(p, "questionsForRecruiter"))
      ==> r == Prop(p, "questionsForRecruiter").value.items
    ensures !IsArray(Prop(p, "interviewerQuestions")) && !IsArray(Prop(p, "questionsForRecruiter"))
      ==> r == (if IsArray(Prop(p, "perguntasParaEntrevistador")) then Prop(p, "perguntasParaEntrevistador").value.items else [])
  {
    if IsArray(Prop(p, "interviewerQuestions")) then Prop(p, "interviewerQuestions").value.items
    else if IsArray(Prop(p, "questionsForRecruiter")) then Prop(p, "questionsForRecruiter").value.items
    else if IsArray(Prop(p, "perguntasParaEntrevistador")) then Prop(p, "perguntasParaEntrevistador").value.items
    else []
  }

  /** `parsed.qa` throws on a null `parsed`, and `it.question` throws on a
      null entry; both lead to the fixed fallback. */
  predicate InterviewThrows(p: Json) {
    p.JNull? || (IsArray(Prop(p, "qa")) && exists k :: 0 <= k < |Prop(p, "qa").value.items| && Prop(p, "qa").value.items[k].JNull?)
  }

  /** From the trimmed model text to the interview record: the first fence
      pair is removed, the rest is parsed as a whole, and the fixed
      fallback is used when parsing or reading the fields throws. */
  function ParseInterview(textOut: string, parse: Parser): (r: InterviewResult)
    ensures parse(Trim(StripFirstFence(textOut))).None? ==> r == InterviewFallback
    ensures var o := parse(Trim(StripFirstFence(textOut)));
            o.Some? && InterviewThrows(o.value) ==> r == InterviewFallback
    ensures var o := parse(Trim(StripFirstFence(textOut)));
            o.Some? && !InterviewThrows(o.value) ==>
              && r.qa == (if IsArray(Prop(o.value, "qa")) then QaPairs(Prop(o.value, "qa").value.items) else [])
              && r.interviewerQuestions == RecruiterQuestions(o.value)
    ensures forall k :: 0 <= k < |r.qa| ==> Filled(r.qa[k])
  {
    FallbackShape();
    match parse(Trim(StripFirstFence(textOut)))
    case None => InterviewFallback
    case Some(p) =>
      if InterviewThrows(p) then InterviewFallback
      else
        var qa := if IsArray(Prop(p, "qa")) then QaPairs(Prop(p, "qa").value.items) else [];
        InterviewResult(qa, RecruiterQuestions(p))
  }

  /** The object a well-behaved model answers with for one pair. */
  function QaJson(q: QaPair): Json {
    JObj(map["question" := JStr(q.question), "answer" := JStr(q.answer)])
  }

  /** The `qa` array of such objects. */
  function QaItemsJson(qs: seq<QaPair>): (items: seq<Json>)
    ensures |items| == |qs| && forall k :: 0 <= k < |qs| ==> items[k] == QaJson(qs[k])
  {
    seq(|qs|, k requires 0 <= k < |qs| => QaJson(qs[k]))
  }

  /** A pair read back from its object, both sides trimmed. */
  lemma QaOfJson(q: QaPair)
    ensures QaOf(QaJson(q)) == QaPair(Trim(q.question), Trim(q.answer))
  {
    var v := QaJson(q);
    assert FirstPresent(v, ["question", "pergunta"], 0);
    assert FirstPresent(v, ["answer", "resposta"], 0);
  }

  /** A well-formed answer keeps every pair whose two sides are non-empty
      and trimmed, in order. */
  lemma {:induction false} QaPairsKeepsWellFormed(qs: seq<QaPair>)
    requires forall k :: 0 <= k < |qs| ==> Filled(qs[k])
    requires forall k :: 0 <= k < |qs| ==> Trimmed(qs[k].question) && Trimmed(qs[k].answer)
    ensures QaPairs(QaItemsJson(qs)) == qs
  {
    if |qs| > 0 {
      var items := QaItemsJson(qs);
      QaItemsTail(qs);
      QaOfJson(qs[0]);
      TrimOfTrimmed(qs[0].question);
      TrimOfTrimmed(qs[0].answer);
      QaPairsKeepsWellFormed(qs[1..]);
      assert QaPairs(items) == [qs[0]] + QaPairs(items[1..]);
      ConsSplit(qs);
    }
  }

  lemma QaItemsTail(qs: seq<QaPair>)
    requires |qs| > 0
    ensures QaItemsJson(qs)[0] == QaJson(qs[0]) && QaItemsJson(qs)[1..] == QaItemsJson(qs[1..])
  {
  }

  lemma ConsSplit<T>(s: seq<T>)
    requires |s| > 0
    ensures s == [s[0]] + s[1..]
  {
  }
}
