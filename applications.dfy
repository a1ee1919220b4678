/** The upload handler of ai-job-backend/src/controllers/applicationsController.js:
    text extraction from an uploaded résumé with its guard against binary
    content, and the decision logic of `createApplication` (the extension
    allow-list, the storage key, the 10000-character cut and the summary
    gate), with the disk, the object store, the database and the summary
    service as small logging objects whose outcomes are parameters. */
module Applications {
  import opened Wrappers
  import opened Text
  import opened JsonValue

  /*************************************************************************
   * The binary-content guard
   *************************************************************************/

  /** A code unit below 32 other than line feed, carriage return and tab. */
  predicate IsControl(c: char) {
    c < ' ' && c != '\n' && c != '\r' && c != '\t'
  }

  /** Number of control characters in `s`. */
  function ControlCount(s: string): (n: nat)
    ensures n <= |s|
    ensures n == 0 <==> forall k :: 0 <= k < |s| ==> !IsControl(s[k])
  {
    if s == [] then 0
    else
      var rest := ControlCount(s[1..]);
      assert forall k :: 1 <= k < |s| ==> s[k] == s[1..][k - 1];
      (if IsControl(s[0]) then 1 else 0) + rest
  }

  lemma {:induction false} ControlCountAppend(a: string, b: string)
    ensures ControlCount(a + b) == ControlCount(a) + ControlCount(b)
  {
    if a == [] {
      assert a + b == b;
    } else {
      assert (a + b)[1..] == a[1..] + b;
      ControlCountAppend(a[1..], b);
    }
  }

  /** `nonPrintable / text.length > 0.15`, in integers; an empty text has
      ratio 0. */
  predicate TooManyControls(t: string) {
    20 * ControlCount(t) > 3 * |t|
  }

  /** The ratio test agrees with the fraction it stands for. */
  lemma TooManyControlsIsRatio(t: string)
    requires |t| > 0
    ensures TooManyControls(t) <==> (ControlCount(t) as real) / (|t| as real) > 0.15
  {
    RatioAbove(ControlCount(t) as real, |t| as real);
  }

  lemma RatioAbove(c: real, l: real)
    requires l > 0.0
    ensures c / l > 0.15 <==> 20.0 * c > 3.0 * l
  {
    var q := c / l;
    assert c == q * l;
    assert 20.0 * c - 3.0 * l == (20.0 * q - 3.0) * l;
    if 20.0 * q - 3.0 > 0.0 {
      assert (20.0 * q - 3.0) * l > 0.0;
    } else {
      assert (20.0 * q - 3.0) * l <= 0.0;
    }
  }

  /** `text.slice(0, 64)` */
  function Head(t: string): (h: string)
    ensures |h| <= 64 && StartsWith(t, h)
  {
    if |t| <= 64 then t else t[..64]
  }

  /** Looking for `%PDF` in the first 64 characters is the same as looking
      at the start of the text. */
  lemma HeadStartsWith(t: string)
    ensures StartsWith(Head(t), "%PDF") <==> StartsWith(t, "%PDF")
  {
    if |t| > 64 {
      assert Head(t)[..4] == t[..4];
    }
  }

  /** A trimmed text is kept unless it starts with `%PDF` or has too many
      control characters. */
  predicate Clean(t: string) {
    !StartsWith(t, "%PDF") && !TooManyControls(t)
  }

  /** The checks applied to a text after trimming it. */
  function Screen(raw: string): (r: string)
    ensures r == "" || (r == Trim(raw) && Clean(r))
    ensures Clean(Trim(raw)) ==> r == Trim(raw)
  {
    var t := Trim(raw);
    HeadStartsWith(t);
    if StartsWith(Head(t), "%PDF") || TooManyControls(t) then "" else t
  }

  /** What the extractor may return: nothing, or a trimmed clean text. */
  predicate Acceptable(r: string) {
    r == "" || (Trimmed(r) && Clean(r))
  }

  lemma ScreenAcceptable(raw: string)
    ensures Acceptable(Screen(raw))
  {
    TrimIdempotent(raw);
  }

  /*************************************************************************
   * extractTextFromBuffer (applicationsController.js:12-66)
   *************************************************************************/

  /** One run of an optional parser: the `text`/`value` field of its result
      (missing or present), or an exception. */
  datatype ParserRun = Parsed(text: Option<string>) | ParserThrows

  /** The foreign parts of an extraction: the pdf-parse and mammoth runs on
      this buffer (`None` when the module cannot be imported) and
      `buffer.toString("utf8")` (`None` when it throws). */
  datatype Extractors = Extractors(pdf: Option<ParserRun>, docx: Option<ParserRun>, utf8: Option<string>)

  datatype Strategy = PdfParse | Mammoth | Utf8Decode

  /** The strategy chosen by the lower-cased file-name suffix and the
      availability of the parser. */
  function StrategyOf(name: string, ex: Extractors): (s: Strategy)
    ensures s == PdfParse <==> EndsWith(Lower(name), ".pdf") && ex.pdf.Some?
    ensures s == Mammoth <==> !(EndsWith(Lower(name), ".pdf") && ex.pdf.Some?) && EndsWith(Lower(name), ".docx") && ex.docx.Some?
  {
    var lower := Lower(name);
    if EndsWith(lower, ".pdf") && ex.pdf.Some? then PdfParse
    else if EndsWith(lower, ".docx") && ex.docx.Some? then Mammoth
    else Utf8Decode
  }

  function RunText(run: ParserRun): Option<string> {
    if run.ParserThrows? then None else Some(run.text.GetOr(""))
  }

  /** The text the chosen strategy produces, `None` when it throws. */
  function RawText(name: string, ex: Extractors): Option<string> {
    match StrategyOf(name, ex)
    case PdfParse => RunText(ex.pdf.value)
    case Mammoth => RunText(ex.docx.value)
    case Utf8Decode => ex.utf8
  }

  /** The text extractTextFromBuffer returns: the screened text of the
      chosen strategy; after an exception, the screened UTF-8 decoding, or
      "" when that throws too. */
  function ExtractSpec(name: string, ex: Extractors): string {
    match RawText(name, ex)
    case Some(t) => Screen(t)
    case None => if ex.utf8.Some? then Screen(ex.utf8.value) else ""
  }

  /** extractTextFromBuffer: never throws, and returns "" or a trimmed text
      that passes the guard. */
  method ExtractTextFromBuffer(originalName: string, ex: Extractors) returns (text: string)
    ensures text == ExtractSpec(originalName, ex)
    ensures Acceptable(text)
  {
    var lower := Lower(originalName);
    var pdfParse: Option<ParserRun> := None;
    var mammoth: Option<ParserRun> := None;
    if EndsWith(lower, ".pdf") {
      pdfParse := ex.pdf;
    }
    if EndsWith(lower, ".docx") {
      mammoth := ex.docx;
    }
    text := "";
    var threw := false;
    if EndsWith(lower, ".pdf") && pdfParse.Some? {
      if pdfParse.value.ParserThrows? {
        threw := true;
      } else {
        text := pdfParse.value.text.GetOr("");
      }
    } else if EndsWith(lower, ".docx") && mammoth.Some? {
      if mammoth.value.ParserThrows? {
        threw := true;
      } else {
        text := mammoth.value.text.GetOr("");
      }
    } else if ex.utf8.None? {
      threw := true;
    } else {
      text := ex.utf8.value;
    }
    if !threw {
      ghost var raw := text;
      text := Trim(text);
      var head := Head(text);
      var nonPrintable := ControlCount(text);
      ScreenAcceptable(raw);
      HeadStartsWith(text);
      if StartsWith(head, "%PDF") || 20 * nonPrintable > 3 * |text| {
        return "";
      }
      return text;
    }
    // the catch block: decode again and apply the same checks
    if ex.utf8.None? {
      return "";
    }
    ScreenAcceptable(ex.utf8.value);
    var fallback := Trim(ex.utf8.value);
    if StartsWith(fallback, "%PDF") {
      return "";
    }
    var nonPrintable := ControlCount(fallback);
    if 20 * nonPrintable > 3 * |fallback| {
      return "";
    }
    return fallback;
  }

  /** A `.doc` or `.txt` upload, or a `.pdf`/`.docx` one whose parser is
      missing, is decoded as UTF-8. */
  lemma Utf8Otherwise(name: string, ex: Extractors)
    requires !EndsWith(Lower(name), ".pdf") || ex.pdf.None?
    requires !EndsWith(Lower(name), ".docx") || ex.docx.None?
    ensures ExtractSpec(name, ex) == if ex.utf8.Some? then Screen(ex.utf8.value) else ""
  {
  }

  /** A parser that throws makes the extractor fall back to the UTF-8
      decoding, screened the same way. */
  lemma ParserFailureFallsBack(name: string, ex: Extractors)
    requires StrategyOf(name, ex) != Utf8Decode
    requires (if StrategyOf(name, ex) == PdfParse then ex.pdf.value else ex.docx.value).ParserThrows?
    ensures ExtractSpec(name, ex) == if ex.utf8.Some? then Screen(ex.utf8.value) else ""
  {
  }

  /** A parser that answers without text yields "". */
  lemma MissingParserTextIsEmpty(name: string, ex: Extractors)
    requires StrategyOf(name, ex) == PdfParse && ex.pdf.value == Parsed(None)
    ensures ExtractSpec(name, ex) == ""
  {
  }

  /** Upper-case suffixes choose the same strategy as lower-case ones. */
  lemma StrategyIgnoresCase(name: string, ex: Extractors)
    ensures StrategyOf(name, ex) == StrategyOf(Lower(name), ex)
  {
    forall k | 0 <= k < |name| ensures LowerChar(LowerChar(name[k])) == LowerChar(name[k]) {
    }
    assert Lower(Lower(name)) == Lower(name);
  }

  /*************************************************************************
   * path.extname and the storage key
   *************************************************************************/

  function DropTrailingSlashes(p: string): (r: string)
    ensures |r| <= |p| && StartsWith(p, r)
    ensures r == "" || r[|r| - 1] != '/'
  {
    if |p| > 0 && p[|p| - 1] == '/' then DropTrailingSlashes(p[..|p| - 1]) else p
  }

  /** The last path component, trailing slashes ignored. */
  function BaseName(p: string): (b: string)
    ensures '/' !in b
    ensures '/' !in p ==> b == p
  {
    var t := DropTrailingSlashes(p);
    var i := LastIndexOf(t, '/');
    t[i + 1..]
  }

  /** `path.extname(p)` (POSIX): from the last `.` of the last component to
      its end, or "" when that component has no `.`, has it only at its
      first position, or is `..`. */
  function Extname(p: string): (r: string)
    ensures r == "" || (r[0] == '.' && '.' !in r[1..] && '/' !in r)
    ensures r != "" <==> LastIndexOf(BaseName(p), '.') > 0 && BaseName(p) != ".."
    ensures '/' !in p ==> (r != "" <==> LastIndexOf(p, '.') > 0 && p != "..")
    ensures '/' !in p && r != "" ==> r == p[LastIndexOf(p, '.')..]
  {
    var b := BaseName(p);
    var d := LastIndexOf(b, '.');
    if d <= 0 || b == ".." then ""
    else
      assert b[d + 1..] == b[d..][1..];
      b[d..]
  }

  /** A name without slashes ends with its extension. */
  lemma ExtnameIsSuffix(p: string)
    requires '/' !in p
    ensures EndsWith(p, Extname(p))
  {
    assert p == [] || p[|p| - 1] != '/';
    assert DropTrailingSlashes(p) == p;
    assert LastIndexOf(p, '/') == -1;
    assert BaseName(p) == p[0..] == p;
    var d := LastIndexOf(p, '.');
    if d <= 0 || p == ".." {
      assert Extname(p) == "";
      assert p[|p|..] == "";
    } else {
      assert Extname(p) == p[d..];
    }
  }

  /** The lower-cased extensions createApplication accepts. */
  const Allowed: seq<string> := [".pdf", ".docx", ".doc", ".txt"]

  /** The characters of `s` other than whitespace and `_`, in order. */
  function Visible(s: string): string
    decreases |s|
  {
    if s == [] then ""
    else (if IsWs(s[0]) || s[0] == '_' then "" else [s[0]]) + Visible(s[1..])
  }

  lemma {:induction false} VisibleAppend(a: string, b: string)
    ensures Visible(a + b) == Visible(a) + Visible(b)
    decreases |a|
  {
    if a == [] {
      assert a + b == b;
    } else {
      assert (a + b)[0] == a[0] && (a + b)[1..] == a[1..] + b;
      VisibleAppend(a[1..], b);
    }
  }

  lemma {:induction false} VisibleOfWs(w: string)
    requires forall k :: 0 <= k < |w| ==> IsWs(w[k])
    ensures Visible(w) == ""
    decreases |w|
  {
    if w != [] {
      VisibleOfWs(w[1..]);
    }
  }

  /** `originalName.replace(/\s+/g, "_")`: every run of whitespace becomes
      one `_`, and every other character is kept, in order. */
  function CollapseWs(s: string): (r: string)
    ensures forall k :: 0 <= k < |r| ==> !IsWs(r[k])
    ensures |r| <= |s|
    decreases |s|
  {
    if s == [] then ""
    else if IsWs(s[0]) then "_" + CollapseWs(s[LeadingWs(s)..])
    else [s[0]] + CollapseWs(s[1..])
  }

  /** Every character other than whitespace and `_` is kept, in order. */
  lemma {:induction false} CollapseVisible(s: string)
    ensures Visible(CollapseWs(s)) == Visible(s)
    decreases |s|
  {
    if s != [] {
      if IsWs(s[0]) {
        var n := LeadingWs(s);
        assert s == s[..n] + s[n..];
        VisibleAppend(s[..n], s[n..]);
        VisibleOfWs(s[..n]);
        CollapseVisible(s[n..]);
        var rest := CollapseWs(s[n..]);
        assert ("_" + rest)[1..] == rest;
      } else {
        CollapseVisible(s[1..]);
        var rest := CollapseWs(s[1..]);
        assert ([s[0]] + rest)[1..] == rest;
      }
    }
  }

  /** A maximal whitespace run after a whitespace-free prefix becomes one
      `_` there, and the collapse goes on after the run. */
  lemma {:induction false} CollapseRun(a: string, w: string, b: string)
    requires forall k :: 0 <= k < |a| ==> !IsWs(a[k])
    requires w != [] && forall k :: 0 <= k < |w| ==> IsWs(w[k])
    requires b == [] || !IsWs(b[0])
    ensures CollapseWs(a + w + b) == a + "_" + CollapseWs(b)
    decreases |a|
  {
    if a == [] {
      CollapseLeadingRun(w, b);
      assert a + w + b == w + b;
    } else {
      NoWsTail(a);
      CollapseRun(a[1..], w, b);
      CollapseRunCons(a, w, b);
    }
  }

  lemma NoWsTail(a: string)
    requires a != [] && forall k :: 0 <= k < |a| ==> !IsWs(a[k])
    ensures forall k :: 0 <= k < |a[1..]| ==> !IsWs(a[1..][k])
  {
  }

  /** The step of CollapseRun: one non-whitespace character in front. */
  lemma CollapseRunCons(a: string, w: string, b: string)
    requires a != [] && !IsWs(a[0])
    requires CollapseWs(a[1..] + w + b) == a[1..] + "_" + CollapseWs(b)
    ensures CollapseWs(a + w + b) == a + "_" + CollapseWs(b)
  {
    var c := "_" + CollapseWs(b);
    assert a[1..] + w + b == a[1..] + (w + b) && a[1..] + "_" + CollapseWs(b) == a[1..] + c;
    CollapseRunStep(a, w + b, c);
    assert a + w + b == a + (w + b) && a + "_" + CollapseWs(b) == a + c;
  }

  lemma CollapseRunStep(a: string, t: string, c: string)
    requires a != [] && !IsWs(a[0])
    requires CollapseWs(a[1..] + t) == a[1..] + c
    ensures CollapseWs(a + t) == a + c
  {
    assert a + t == [a[0]] + (a[1..] + t);
    CollapseKeeps(a[0], a[1..] + t);
    assert a + c == [a[0]] + (a[1..] + c);
  }

  /** A character that is not whitespace is kept in front. */
  lemma CollapseKeeps(c: char, t: string)
    requires !IsWs(c)
    ensures CollapseWs([c] + t) == [c] + CollapseWs(t)
  {
    assert ([c] + t)[1..] == t;
  }

  lemma CollapseLeadingRun(w: string, b: string)
    requires w != [] && forall k :: 0 <= k < |w| ==> IsWs(w[k])
    requires b == [] || !IsWs(b[0])
    ensures CollapseWs(w + b) == "_" + CollapseWs(b)
  {
    var s := w + b;
    LeadingRun(w, b);
    assert IsWs(s[0]);
    assert s[|w|..] == b;
  }

  lemma {:induction false} LeadingRun(w: string, b: string)
    requires forall k :: 0 <= k < |w| ==> IsWs(w[k])
    requires b == [] || !IsWs(b[0])
    ensures LeadingWs(w + b) == |w|
    decreases |w|
  {
    if w != [] {
      assert (w + b)[1..] == w[1..] + b;
      LeadingRun(w[1..], b);
    }
  }

  /** A name without whitespace is kept as it is. */
  lemma {:induction false} CollapseWsNoWs(s: string)
    requires forall k :: 0 <= k < |s| ==> !IsWs(s[k])
    ensures CollapseWs(s) == s
    decreases |s|
  {
    if s != [] {
      assert forall k :: 0 <= k < |s[1..]| ==> s[1..][k] == s[k + 1];
      CollapseWsNoWs(s[1..]);
    }
  }

  /** The storage key `${id}_${name}` with whitespace runs replaced. */
  function StorageKey(id: string, originalName: string): (key: string)
    ensures (forall k :: 0 <= k < |id| ==> !IsWs(id[k])) ==> forall k :: 0 <= k < |key| ==> !IsWs(key[k])
    ensures StartsWith(key, id + "_")
    ensures key == id + "_" + CollapseWs(originalName)
  {
    var c := CollapseWs(originalName);
    var key := id + "_" + c;
    assert forall k :: |id| + 1 <= k < |key| ==> key[k] == c[k - |id| - 1];
    assert key[..|id| + 1] == id + "_";
    key
  }

  /** `Date.now().toString()`: the decimal digits of the clock value. */
  function IdOf(now: nat): string {
    NatToString(now)
  }

  lemma {:induction false} NatToStringDigits(n: nat)
    ensures |NatToString(n)| > 0
    ensures forall k :: 0 <= k < |NatToString(n)| ==> '0' <= NatToString(n)[k] <= '9'
    decreases n
  {
    if n >= 10 {
      NatToStringDigits(n / 10);
    }
  }

  /** The key under which an upload is stored never contains whitespace. */
  lemma StorageKeyHasNoWs(now: nat, originalName: string)
    ensures forall k :: 0 <= k < |StorageKey(IdOf(now), originalName)| ==> !IsWs(StorageKey(IdOf(now), originalName)[k])
  {
    NatToStringDigits(now);
  }

  const UploadsDir: string := "uploads"

  /** `path.join(uploadsDir, key)` */
  function LocalPath(key: string): string {
    UploadsDir + "/" + key
  }

  /*************************************************************************
   * createApplication (applicationsController.js:68-127)
   *************************************************************************/

  /** The file multer hands over: its original name and what the foreign
      extractors make of its buffer. */
  datatype UploadedFile = UploadedFile(originalName: string, extractors: Extractors)

  /** The record saved to the database (its timestamp is left out). */
  datatype Application = Application(id: string, resumeUrl: Option<string>, originalName: string)

  datatype Body =
    | ErrorBody(error: string)
    | Created(resumeId: string, application: Application, extractedText: string, summary: Json)

  datatype Response = Response(status: nat, body: Body)

  /** The outcomes of the foreign calls: the S3 upload (`None` when it
      throws; otherwise the `Location` it reports, if any), the database
      save, and the summary request (`None` when it throws; otherwise the
      response data). */
  datatype Services = Services(upload: Option<Option<string>>, saveSucceeds: bool,
                               writeSucceeds: bool, summary: Option<Json>)

  /** The local temporary files. */
  class Disk {
    var files: set<string>

    constructor (files0: set<string>)
      ensures files == files0
    {
      files := files0;
    }

    /** `fs.writeFileSync`, whose failure the handler ignores. */
    method WriteFile(path: string, succeeds: bool)
      modifies this
      ensures files == if succeeds then old(files) + {path} else old(files)
    {
      if succeeds {
        files := files + {path};
      }
    }

    /** `if (fs.existsSync(p)) fs.unlinkSync(p)` */
    method RemoveIfExists(path: string)
      modifies this
      ensures files == old(files) - {path}
    {
      if path in files {
        files := files - {path};
      }
    }
  }

  /** The remote services, as logs of the requests they receive. */
  class Backend {
    var uploads: seq<string>
    var saved: seq<Application>
    var summaryRequests: seq<string>

    constructor ()
      ensures uploads == [] && saved == [] && summaryRequests == []
    {
      uploads := [];
      saved := [];
      summaryRequests := [];
    }

    method UploadFile(key: string)
      modifies this
      ensures uploads == old(uploads) + [key]
      ensures saved == old(saved) && summaryRequests == old(summaryRequests)
    {
      uploads := uploads + [key];
    }

    method SaveApplication(app: Application)
      modifies this
      ensures saved == old(saved) + [app]
      ensures uploads == old(uploads) && summaryRequests == old(summaryRequests)
    {
      saved := saved + [app];
    }

    method RequestSummary(resumeText: string)
      modifies this
      ensures summaryRequests == old(summaryRequests) + [resumeText]
      ensures uploads == old(uploads) && saved == old(saved)
    {
      summaryRequests := summaryRequests + [resumeText];
    }
  }

  const NoFileMessage: string := "Nenhum arquivo enviado."

  function UnsupportedMessage(ext: string): string {
    "Tipo de arquivo não suportado (" + ext + "). Use PDF/DOCX/TXT."
  }

  const InternalErrorMessage: string := "Erro interno no servidor"

  /** `req.file.originalname || "resume"` */
  function NameOf(f: UploadedFile): string {
    if f.originalName == "" then "resume" else f.originalName
  }

  /** The request is refused before anything is stored. */
  predicate Rejected(file: Option<UploadedFile>) {
    file.None? || Lower(Extname(NameOf(file.value))) !in Allowed
  }

  /** `resumeText.length > 10000 ? resumeText.slice(0, 10000) : resumeText` */
  function Truncate(t: string): (r: string)
    ensures |r| == if |t| < 10000 then |t| else 10000
    ensures StartsWith(t, r)
  {
    if |t| > 10000 then t[..10000] else t
  }

  /** A summary is requested for texts longer than 50 characters. */
  predicate WantsSummary(t: string) {
    |t| > 50
  }

  /** `aiRes?.data?.summary ?? null`, and null when the request throws. */
  function SummaryOf(reply: Option<Json>): Json {
    if reply.Some? && !Nullish(Prop(reply.value, "summary")) then Prop(reply.value, "summary").value else JNull
  }

  /** The response createApplication sends. */
  function CreateResponse(file: Option<UploadedFile>, now: nat, svc: Services): Response {
    if file.None? then Response(400, ErrorBody(NoFileMessage))
    else
      var name := NameOf(file.value);
      var ext := Lower(Extname(name));
      if ext !in Allowed then Response(400, ErrorBody(UnsupportedMessage(ext)))
      else if svc.upload.None? || !svc.saveSucceeds then Response(500, ErrorBody(InternalErrorMessage))
      else
        var id := IdOf(now);
        var app := Application(id, svc.upload.value, name);
        var text := ExtractSpec(name, file.value.extractors);
        var summary := if WantsSummary(text) then SummaryOf(svc.summary) else JNull;
        Response(201, Created(id, app, Truncate(text), summary))
  }

  /** The key an accepted upload is stored under. */
  function KeyOf(file: UploadedFile, now: nat): string {
    StorageKey(IdOf(now), NameOf(file))
  }

  /** createApplication, step by step; the temporary file is removed on
      every path that wrote it. */
  method CreateApplication(file: Option<UploadedFile>, now: nat, svc: Services, disk: Disk, backend: Backend)
    returns (resp: Response)
    modifies disk, backend
    ensures resp == CreateResponse(file, now, svc)
    ensures Rejected(file) ==> unchanged(disk) && unchanged(backend)
    ensures !Rejected(file) ==>
              && disk.files == old(disk.files) - {LocalPath(KeyOf(file.value, now))}
              && backend.uploads == old(backend.uploads) + [KeyOf(file.value, now)]
              && backend.saved == old(backend.saved)
                   + (if svc.upload.Some? then [Application(IdOf(now), svc.upload.value, NameOf(file.value))] else [])
              && backend.summaryRequests == old(backend.summaryRequests)
                   + (if resp.status == 201 && WantsSummary(ExtractSpec(NameOf(file.value), file.value.extractors))
                      then [ExtractSpec(NameOf(file.value), file.value.extractors)] else [])
  {
    if file.None? {
      return Response(400, ErrorBody(NoFileMessage));
    }
    var originalName := NameOf(file.value);
    var ext := Lower(Extname(originalName));
    if ext !in Allowed {
      return Response(400, ErrorBody(UnsupportedMessage(ext)));
    }
    var id := IdOf(now);
    var key := StorageKey(id, originalName);
    var localPath := LocalPath(key);
    WrittenThenRemoved(disk.files, localPath, svc.writeSucceeds);
    disk.WriteFile(localPath, svc.writeSucceeds);
    backend.UploadFile(key);
    if svc.upload.None? {
      disk.RemoveIfExists(localPath);
      return Response(500, ErrorBody(InternalErrorMessage));
    }
    var application := Application(id, svc.upload.value, originalName);
    backend.SaveApplication(application);
    if !svc.saveSucceeds {
      disk.RemoveIfExists(localPath);
      return Response(500, ErrorBody(InternalErrorMessage));
    }
    var resumeText := ExtractTextFromBuffer(originalName, file.value.extractors);
    var extractedText := Truncate(resumeText);
    var summary := JNull;
    if resumeText != "" && |resumeText| > 50 {
      backend.RequestSummary(resumeText);
      summary := SummaryOf(svc.summary);
    }
    disk.RemoveIfExists(localPath);
    return Response(201, Created(id, application, extractedText, summary));
  }

  /** Removing a file leaves the same files whether or not it was written. */
  lemma WrittenThenRemoved(files: set<string>, path: string, written: bool)
    ensures (if written then files + {path} else files) - {path} == files - {path}
  {
  }

  /** Status 400 exactly for a missing file or an extension outside the
      allow-list; otherwise 500 exactly when the upload or the save fails,
      and 201 on success. */
  lemma CreateStatus(file: Option<UploadedFile>, now: nat, svc: Services)
    ensures CreateResponse(file, now, svc).status == 400 <==> Rejected(file)
    ensures CreateResponse(file, now, svc).status == 500 <==> !Rejected(file) && (svc.upload.None? || !svc.saveSucceeds)
    ensures CreateResponse(file, now, svc).status == 201 <==> !Rejected(file) && svc.upload.Some? && svc.saveSucceeds
  {
  }

  /** On success the response carries the first min(length, 10000)
      characters of the extracted text, a summary only for texts longer
      than 50 characters, and the saved record. */
  lemma CreatedBody(file: Option<UploadedFile>, now: nat, svc: Services)
    requires CreateResponse(file, now, svc).status == 201
    ensures var b := CreateResponse(file, now, svc).body;
            var text := ExtractSpec(NameOf(file.value), file.value.extractors);
            && b.Created?
            && StartsWith(text, b.extractedText)
            && |b.extractedText| == (if |text| < 10000 then |text| else 10000)
            && (|text| <= 50 ==> b.summary == JNull)
            && b.resumeId == IdOf(now) && b.application.id == IdOf(now)
            && Acceptable(text)
  {
    var name := NameOf(file.value);
    var ex := file.value.extractors;
    match RawText(name, ex)
    case Some(t) => ScreenAcceptable(t);
    case None => if ex.utf8.Some? { ScreenAcceptable(ex.utf8.value); }
  }
}
