/** How the interview form of ai-job-frontend/src/components/JobForm.tsx
    turns whatever the interview endpoint answered into question and answer
    pairs: `normalizeRawItem`, `extractFromPossibleContainer` and the
    fallback through common wrapper keys in `handleInterview`. */
module JobForm {
  import opened Wrappers
  import opened JsonValue

  /** `{ question: string; answer: string }` */
  datatype InterviewItem = InterviewItem(question: string, answer: string)

  const QuestionKeys: seq<string> := ["question", "pergunta", "q", "question_text", "pergunta_text", "q_text"]
  const AnswerKeys: seq<string> := ["answer", "resposta", "a", "answer_text", "resposta_text", "a_text", "reply"]

  /** `normalizeRawItem`: null and undefined give an empty pair, a string is a
      question without answer, an object (arrays included) reads the first
      non-null alias of each field, anything else is shown with `String`. */
  function NormalizeRawItem(raw: Option<Json>): (item: InterviewItem)
    ensures Nullish(raw) ==> item == InterviewItem("", "")
    ensures raw.Some? && raw.value.JStr? ==> item == InterviewItem(raw.value.s, "")
    ensures raw.Some? && raw.value.JArr? ==> item == InterviewItem("", "")
  {
    if Nullish(raw) then InterviewItem("", "")
    else
      var v := raw.value;
      if v.JStr? then InterviewItem(v.s, "")
      else if IsObject(v) then
        InterviewItem(JsString(Coalesce(v, QuestionKeys, JStr(""))), JsString(Coalesce(v, AnswerKeys, JStr(""))))
      else InterviewItem(JsString(v), "")
  }

  /** For an object, the question is the first alias present with a
      non-null value, shown with `String` (so a present `""` still wins over
      later aliases), and "" when none is present; the same for the answer. */
  lemma NormalizeObject(v: Json)
    requires v.JObj?
    ensures var item := NormalizeRawItem(Some(v));
            && (forall i :: FirstPresent(v, QuestionKeys, i) ==> item.question == JsString(v.fields[QuestionKeys[i]]))
            && ((forall i :: 0 <= i < |QuestionKeys| ==> Nullish(Prop(v, QuestionKeys[i]))) ==> item.question == "")
            && (forall i :: FirstPresent(v, AnswerKeys, i) ==> item.answer == JsString(v.fields[AnswerKeys[i]]))
            && ((forall i :: 0 <= i < |AnswerKeys| ==> Nullish(Prop(v, AnswerKeys[i]))) ==> item.answer == "")
  {
  }

  /** Numbers and booleans become the question text, as `String` shows them. */
  lemma NormalizeScalar(v: Json)
    requires v.JNum? || v.JBool?
    ensures NormalizeRawItem(Some(v)) == InterviewItem(JsString(v), "")
  {
  }

  /** The canonical object `{question, answer}` of two strings. */
  function ItemJson(item: InterviewItem): (v: Json)
    ensures v.JObj? && v.fields.Keys == {"question", "answer"}
  {
    JObj(map["question" := JStr(item.question), "answer" := JStr(item.answer)])
  }

  /** Normalizing the canonical object of a pair gives the pair back. */
  lemma NormalizeItemJson(item: InterviewItem)
    ensures NormalizeRawItem(Some(ItemJson(item))) == item
  {
    var v := ItemJson(item);
    assert FirstPresent(v, QuestionKeys, 0);
    assert FirstPresent(v, AnswerKeys, 0);
  }

  /** `items.map((it) => normalizeRawItem(it))` */
  function NormalizeAll(items: seq<Json>): (r: seq<InterviewItem>)
    ensures |r| == |items|
    ensures forall k :: 0 <= k < |items| ==> r[k] == NormalizeRawItem(Some(items[k]))
  {
    seq(|items|, k requires 0 <= k < |items| => NormalizeRawItem(Some(items[k])))
  }

  const CandidateKeys: seq<string> := ["qa", "questionsAndAnswers", "questions_and_answers", "questions", "items", "data", "answers"]

  /** Key `keys[i]` is the first of `keys` holding an array. */
  ghost predicate FirstArrayAt(v: Json, keys: seq<string>, i: int) {
    && 0 <= i < |keys|
    && IsArray(Prop(v, keys[i]))
    && forall j :: 0 <= j < i ==> !IsArray(Prop(v, keys[j]))
  }

  /** The first-match loop over the candidate keys. */
  function FirstArrayKey(v: Json, keys: seq<string>): (r: Option<nat>)
    ensures r.Some? ==> FirstArrayAt(v, keys, r.value)
    ensures r.None? ==> forall j :: 0 <= j < |keys| ==> !IsArray(Prop(v, keys[j]))
  {
    if keys == [] then None
    else if IsArray(Prop(v, keys[0])) then Some(0)
    else
      match FirstArrayKey(v, keys[1..])
      case None => None
      case Some(i) => Some(i + 1)
  }

  /** `"question" in obj || "pergunta" in obj || "answer" in obj || "resposta" in obj`:
      a key counts even when its value is null. */
  predicate LooksLikeItem(v: Json) {
    v.JObj? && ("question" in v.fields || "pergunta" in v.fields || "answer" in v.fields || "resposta" in v.fields)
  }

  /** `extractFromPossibleContainer` */
  function ExtractFromPossibleContainer(container: Option<Json>): (r: seq<InterviewItem>)
    ensures !IsObject(container.GetOr(JNull)) ==> r == []
  {
    if IsArray(container) then NormalizeAll(container.value.items)
    else if container.Some? && container.value.JObj? then
      var obj := container.value;
      match FirstArrayKey(obj, CandidateKeys)
      case Some(i) => NormalizeAll(Prop(obj, CandidateKeys[i]).value.items)
      case None => if LooksLikeItem(obj) then [NormalizeRawItem(container)] else []
    else []
  }

  /** An array container is normalized element by element. */
  lemma ArrayContainer(items: seq<Json>)
    ensures var r := ExtractFromPossibleContainer(Some(JArr(items)));
            && |r| == |items|
            && forall k :: 0 <= k < |items| ==> r[k] == NormalizeRawItem(Some(items[k]))
  {
  }

  /** In an object container the first candidate key holding an array wins,
      whatever the later keys hold. */
  lemma KeyedContainer(v: Json, i: nat)
    requires v.JObj? && FirstArrayAt(v, CandidateKeys, i)
    ensures ExtractFromPossibleContainer(Some(v)) == NormalizeAll(v.fields[CandidateKeys[i]].items)
  {
    var k := FirstArrayKey(v, CandidateKeys);
    assert k == Some(i);
  }

  /** Without such a key, an object naming a question or answer field is a
      single item, and any other object yields nothing. */
  lemma UnkeyedContainer(v: Json)
    requires v.JObj? && forall j :: 0 <= j < |CandidateKeys| ==> !IsArray(Prop(v, CandidateKeys[j]))
    ensures LooksLikeItem(v) ==> ExtractFromPossibleContainer(Some(v)) == [NormalizeRawItem(Some(v))]
    ensures !LooksLikeItem(v) ==> ExtractFromPossibleContainer(Some(v)) == []
  {
    assert FirstArrayKey(v, CandidateKeys).None?;
  }

  /** The canonical array of pairs. */
  function ItemsJson(items: seq<InterviewItem>): (v: Json)
    ensures v.JArr? && |v.items| == |items|
    ensures forall k :: 0 <= k < |items| ==> v.items[k] == ItemJson(items[k])
  {
    JArr(seq(|items|, k requires 0 <= k < |items| => ItemJson(items[k])))
  }

  /** Pairs sent as an array of `{question, answer}` objects, bare or under
      any candidate key, come back unchanged. */
  lemma ExtractItemsJson(items: seq<InterviewItem>, key: string)
    requires key in CandidateKeys
    ensures ExtractFromPossibleContainer(Some(ItemsJson(items))) == items
    ensures ExtractFromPossibleContainer(Some(JObj(map[key := ItemsJson(items)]))) == items
  {
    var r := ExtractFromPossibleContainer(Some(ItemsJson(items)));
    forall k | 0 <= k < |items| ensures r[k] == items[k] {
      NormalizeItemJson(items[k]);
    }
    var v := JObj(map[key := ItemsJson(items)]);
    var i :| 0 <= i < |CandidateKeys| && CandidateKeys[i] == key;
    assert forall j :: 0 <= j < |CandidateKeys| && CandidateKeys[j] != key ==> !IsArray(Prop(v, CandidateKeys[j]));
    assert forall j, m :: 0 <= j < m < |CandidateKeys| ==> CandidateKeys[j] != CandidateKeys[m];
    assert FirstArrayAt(v, CandidateKeys, i);
    KeyedContainer(v, i);
  }

  const AltKeys: seq<string> := ["interview", "body", "payload", "result", "data"]

  /** `obj.interview ?? obj.body ?? obj.payload ?? obj.result ?? obj.data`:
      the first of them with a non-null value, else whatever `obj.data` is. */
  function AltContainer(v: Json, keys: seq<string>): (r: Option<Json>)
    requires keys != []
    ensures forall i :: FirstPresent(v, keys, i) ==> r == Prop(v, keys[i])
    ensures (forall i :: 0 <= i < |keys| ==> Nullish(Prop(v, keys[i]))) ==> r == Prop(v, keys[|keys| - 1])
  {
    if |keys| == 1 || !Nullish(Prop(v, keys[0])) then Prop(v, keys[0])
    else
      FirstPresentTail(v, keys);
      AltContainer(v, keys[1..])
  }

  /** The list `handleInterview` stores for a result: the top-level items,
      or, when there are none and the result is an object, the items found in
      the first non-null wrapper. */
  function InterviewItemsOf(result: Json): seq<InterviewItem> {
    var normalized := ExtractFromPossibleContainer(Some(result));
    if |normalized| == 0 && IsObject(result) then
      var altNormalized := ExtractFromPossibleContainer(AltContainer(result, AltKeys));
      if |altNormalized| > 0 then altNormalized else []
    else normalized
  }

  /** Items found at the top level are used as they are. */
  lemma TopLevelWins(result: Json)
    requires |ExtractFromPossibleContainer(Some(result))| > 0
    ensures InterviewItemsOf(result) == ExtractFromPossibleContainer(Some(result))
  {
  }

  /** Otherwise the first non-null wrapper decides, and nothing is set when
      it holds nothing either. */
  lemma WrapperFallback(result: Json, i: nat)
    requires |ExtractFromPossibleContainer(Some(result))| == 0
    requires FirstPresent(result, AltKeys, i)
    ensures InterviewItemsOf(result) == ExtractFromPossibleContainer(Some(result.fields[AltKeys[i]]))
  {
  }

  /** With no top-level items and every wrapper null or missing, nothing
      is found. */
  lemma NoWrapperNothing(result: Json)
    requires |ExtractFromPossibleContainer(Some(result))| == 0
    requires forall i :: 0 <= i < |AltKeys| ==> Nullish(Prop(result, AltKeys[i]))
    ensures InterviewItemsOf(result) == []
  {
  }

  /** Pairs wrapped once, as `{ interview: [...] }` or `{ payload: { qa: [...] } }`
      and the like, come back unchanged. */
  lemma WrappedItems(items: seq<InterviewItem>, wrapper: string, key: string)
    requires wrapper in AltKeys && key in CandidateKeys && wrapper !in CandidateKeys
    ensures InterviewItemsOf(JObj(map[wrapper := ItemsJson(items)])) == items
    ensures InterviewItemsOf(JObj(map[wrapper := JObj(map[key := ItemsJson(items)])])) == items
  {
    ExtractItemsJson(items, key);
    Unwrap(wrapper, ItemsJson(items));
    Unwrap(wrapper, JObj(map[key := ItemsJson(items)]));
  }

  /** An object whose only key is a wrapper that is not a candidate key is
      read through that wrapper. */
  lemma Unwrap(wrapper: string, inner: Json)
    requires wrapper in AltKeys && wrapper !in CandidateKeys && !inner.JNull?
    ensures InterviewItemsOf(JObj(map[wrapper := inner])) == ExtractFromPossibleContainer(Some(inner))
  {
    var v := JObj(map[wrapper := inner]);
    var i :| 0 <= i < |AltKeys| && AltKeys[i] == wrapper;
    assert forall j :: 0 <= j < |CandidateKeys| ==> !IsArray(Prop(v, CandidateKeys[j]));
    UnkeyedContainer(v);
    assert forall j :: 0 <= j < i ==> AltKeys[j] != wrapper;
    assert FirstPresent(v, AltKeys, i);
  }
}
