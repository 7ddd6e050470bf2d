/**
 * The parser entry point: the ordered registry of formats, the dispatch that
 * hands a file to the first format whose detector accepts it, the detect-only
 * variant, the list of supported formats, and the file name taken from a path.
 *
 * Reading the file is outside the model: `parseFile` receives the content it
 * would have read, and `detectFormat` receives `None` when the read fails.
 */
module ParserRegistry {
  import opened Wrappers
  import opened JsValues
  import opened ChatModel
  import ChatlabJsonParser

  /** The registry in priority order: ChatLab JSON first, QQ JSON second, and
      the permissive QQ text format last. The two QQ formats are given as their
      detect/parse pairs. */
  function Parsers(jsonParse: string -> Option<Json>, qqJson: ChatParser, qqTxt: ChatParser)
    : (ps: seq<ChatParser>)
    ensures |ps| == 3
    ensures ps[0] == ChatlabJsonParser.Parser(jsonParse) && ps[1] == qqJson && ps[2] == qqTxt
  {
    [ChatlabJsonParser.Parser(jsonParse), qqJson, qqTxt]
  }

  // ------------------------------------------------------------- file names

  predicate IsSeparator(c: char) {
    c == '/' || c == '\\'
  }

  predicate SeparatorFree(s: string) {
    forall i :: 0 <= i < |s| ==> !IsSeparator(s[i])
  }

  /** The separator characters of `s`, in order. */
  function Separators(s: string): string {
    if s == [] then []
    else Separators(s[..|s| - 1]) + (if IsSeparator(s[|s| - 1]) then [s[|s| - 1]] else [])
  }

  /** The pieces with the separators put back between them. */
  function Join(parts: seq<string>, seps: string): string
    requires |parts| == |seps| + 1
  {
    if seps == [] then parts[0]
    else Join(parts[..|parts| - 1], seps[..|seps| - 1]) + [seps[|seps| - 1]] + parts[|parts| - 1]
  }

  /** Appending a character to the last piece appends it to the joined text. */
  lemma JoinExtendsLast(parts: seq<string>, seps: string, c: char)
    requires |parts| == |seps| + 1
    ensures Join(parts[..|parts| - 1] + [parts[|parts| - 1] + [c]], seps) == Join(parts, seps) + [c]
  {
    var extended := parts[..|parts| - 1] + [parts[|parts| - 1] + [c]];
    if seps != [] {
      assert extended[..|extended| - 1] == parts[..|parts| - 1];
    }
  }

  /** `path.split(/[/\\]/)`: the pieces between separators, empty ones kept.
      Joining the pieces with the path's separators gives back the path, and
      no piece holds a separator, which determines the pieces. */
  function SplitPath(path: string): (parts: seq<string>)
    ensures |parts| == |Separators(path)| + 1
    ensures forall i :: 0 <= i < |parts| ==> SeparatorFree(parts[i])
    ensures Join(parts, Separators(path)) == path
  {
    if path == [] then [""]
    else
      var prefix := path[..|path| - 1];
      var init := SplitPath(prefix);
      var c := path[|path| - 1];
      assert path == prefix + [c];
      if IsSeparator(c) then
        var parts := init + [""];
        assert parts[..|parts| - 1] == init;
        assert Separators(path)[..|Separators(path)| - 1] == Separators(prefix);
        parts
      else
        assert Separators(path) == Separators(prefix);
        JoinExtendsLast(init, Separators(prefix), c);
        init[..|init| - 1] + [init[|init| - 1] + [c]]
  }

  /** `path.split(/[/\\]/).pop() || ''`. The split is never empty, so `pop`
      always yields its last piece, and `|| ''` leaves `''` as it is. */
  function FileName(path: string): string {
    var parts := SplitPath(path);
    parts[|parts| - 1]
  }

  /** The file name is the separator-free tail of the path that starts right
      after its last separator (or at its start when it has none). */
  lemma {:induction false} FileNameIsLastSegment(path: string)
    ensures SeparatorFree(FileName(path))
    ensures |FileName(path)| <= |path|
    ensures FileName(path) == path[|path| - |FileName(path)|..]
    ensures |FileName(path)| < |path| ==> IsSeparator(path[|path| - |FileName(path)| - 1])
  {
    if path != [] {
      var prefix := path[..|path| - 1];
      FileNameIsLastSegment(prefix);
      var c := path[|path| - 1];
      if !IsSeparator(c) {
        var last := FileName(prefix);
        assert FileName(path) == last + [c];
        assert path == prefix + [c];
      }
    }
  }

  /** A path that ends in a separator has the empty file name. */
  lemma FileNameAfterTrailingSeparator(path: string)
    requires |path| > 0 && IsSeparator(path[|path| - 1])
    ensures FileName(path) == ""
  {
  }

  // --------------------------------------------------------------- dispatch

  /** The index of the first parser at or after `from` whose detector accepts
      the file, or `None` when none does. */
  function FirstDetecting(parsers: seq<ChatParser>, from: nat, content: string, filename: string)
    : (r: Option<nat>)
    requires from <= |parsers|
    ensures r.Some? ==> from <= r.value < |parsers| && parsers[r.value].detect(content, filename)
    ensures r.Some? ==> forall j :: from <= j < r.value ==> !parsers[j].detect(content, filename)
    ensures r.None? <==> forall j :: from <= j < |parsers| ==> !parsers[j].detect(content, filename)
    decreases |parsers| - from
  {
    if from == |parsers| then None
    else if parsers[from].detect(content, filename) then Some(from)
    else FirstDetecting(parsers, from + 1, content, filename)
  }

  /** What `parseFile` returns for a file with this content and file name. */
  function Dispatch(parsers: seq<ChatParser>, content: string, filename: string)
    : Result<ParseResult, ImportError>
  {
    match FirstDetecting(parsers, 0, content, filename)
    case None => Failure(UnrecognizedFormat(filename))
    case Some(k) => parsers[k].parse(content, filename)
  }

  /** `parseFile`: try the detectors in registry order and return what the
      first accepting format's parser returns. */
  method ParseFile(parsers: seq<ChatParser>, content: string, filePath: string)
    returns (r: Result<ParseResult, ImportError>)
    ensures r == Dispatch(parsers, content, FileName(filePath))
  {
    var filename := FileName(filePath);
    var i := 0;
    while i < |parsers|
      invariant 0 <= i <= |parsers|
      invariant FirstDetecting(parsers, i, content, filename) == FirstDetecting(parsers, 0, content, filename)
    {
      if parsers[i].detect(content, filename) {
        return parsers[i].parse(content, filename);
      }
      i := i + 1;
    }
    return Failure(UnrecognizedFormat(filename));
  }

  /** What `detectFormat` returns: the name of the format `parseFile` would
      pick, or `None` when the read failed or no format matched. */
  function DetectedName(parsers: seq<ChatParser>, read: Option<string>, filePath: string)
    : Option<string>
  {
    match read
    case None => None
    case Some(content) =>
      match FirstDetecting(parsers, 0, content, FileName(filePath))
      case None => None
      case Some(k) => Some(parsers[k].name)
  }

  /** `detectFormat`: the same search as `parseFile`, returning the name. */
  method DetectFormat(parsers: seq<ChatParser>, read: Option<string>, filePath: string)
    returns (r: Option<string>)
    ensures r == DetectedName(parsers, read, filePath)
  {
    if read.None? {
      return None;
    }
    var content := read.value;
    var filename := FileName(filePath);
    var i := 0;
    while i < |parsers|
      invariant 0 <= i <= |parsers|
      invariant FirstDetecting(parsers, i, content, filename) == FirstDetecting(parsers, 0, content, filename)
    {
      if parsers[i].detect(content, filename) {
        return Some(parsers[i].name);
      }
      i := i + 1;
    }
    return None;
  }

  /** `getSupportedFormats`: one `{ name, platform }` per registered parser. */
  function SupportedFormats(parsers: seq<ChatParser>): (r: seq<FormatInfo>)
    ensures |r| == |parsers|
    ensures forall i :: 0 <= i < |parsers| ==> r[i] == FormatInfo(parsers[i].name, parsers[i].platform)
  {
    if parsers == [] then []
    else [FormatInfo(parsers[0].name, parsers[0].platform)] + SupportedFormats(parsers[1..])
  }

  // ------------------------------------------------------------ properties

  /** The first accepting parser is the one whose result `parseFile` returns;
      the parsers after it are never consulted. */
  lemma DispatchUsesFirstMatch(parsers: seq<ChatParser>, content: string, filename: string, k: nat)
    requires k < |parsers| && parsers[k].detect(content, filename)
    requires forall j :: 0 <= j < k ==> !parsers[j].detect(content, filename)
    ensures Dispatch(parsers, content, filename) == parsers[k].parse(content, filename)
  {
  }

  /** The parser `parseFile` calls is one whose detector accepted the file, so
      a parser whose detector rejected it is never invoked; an error from the
      chosen parser is returned as it is. */
  lemma DispatchOnlyParsesAccepted(parsers: seq<ChatParser>, content: string, filename: string)
    ensures Dispatch(parsers, content, filename) == Failure(UnrecognizedFormat(filename)) ||
      exists k :: 0 <= k < |parsers| && parsers[k].detect(content, filename) &&
        Dispatch(parsers, content, filename) == parsers[k].parse(content, filename)
  {
  }

  /** When no detector accepts, `parseFile` fails with an error whose message
      names the file. */
  lemma UnrecognizedNamesFile(parsers: seq<ChatParser>, content: string, filename: string)
    requires forall j :: 0 <= j < |parsers| ==> !parsers[j].detect(content, filename)
    ensures Dispatch(parsers, content, filename) == Failure(UnrecognizedFormat(filename))
    ensures var m := Dispatch(parsers, content, filename).error.Message();
      |filename| <= |m| && m[|m| - |filename|..] == filename
  {
  }

  /** Registration order decides: when two formats both accept a file, the one
      registered first is used, whichever parser that is. */
  lemma EarlierRegistrationWins(a: ChatParser, b: ChatParser, content: string, filename: string)
    requires a.detect(content, filename) && b.detect(content, filename)
    ensures Dispatch([a, b], content, filename) == a.parse(content, filename)
    ensures Dispatch([b, a], content, filename) == b.parse(content, filename)
  {
  }

  /** `detectFormat` names exactly the format `parseFile` parses with, and
      returns `None` exactly when `parseFile` would report an unrecognized
      format (or the read failed). */
  lemma DetectFormatAgreesWithParseFile(parsers: seq<ChatParser>, content: string, filePath: string)
    ensures var filename := FileName(filePath);
      DetectedName(parsers, Some(content), filePath).None? <==>
        forall j :: 0 <= j < |parsers| ==> !parsers[j].detect(content, filename)
    ensures var filename := FileName(filePath);
      forall k :: (0 <= k < |parsers| && parsers[k].detect(content, filename) &&
                   (forall j :: 0 <= j < k ==> !parsers[j].detect(content, filename))) ==>
          DetectedName(parsers, Some(content), filePath) == Some(parsers[k].name) &&
          Dispatch(parsers, content, filename) == parsers[k].parse(content, filename)
  {
  }

  /** A failed read makes `detectFormat` return `None`. */
  lemma DetectFormatOnReadFailure(parsers: seq<ChatParser>, filePath: string)
    ensures DetectedName(parsers, None, filePath) == None
  {
  }

  /** Any name `detectFormat` returns is listed by `getSupportedFormats`. */
  lemma DetectedNameIsSupported(parsers: seq<ChatParser>, read: Option<string>, filePath: string)
    requires DetectedName(parsers, read, filePath).Some?
    ensures exists i :: (0 <= i < |parsers| &&
      SupportedFormats(parsers)[i].name == DetectedName(parsers, read, filePath).value)
  {
    var k := FirstDetecting(parsers, 0, read.value, FileName(filePath)).value;
    assert SupportedFormats(parsers)[k].name == parsers[k].name;
  }

  /** The registry lists ChatLab JSON first. */
  lemma SupportedFormatsOfRegistry(jsonParse: string -> Option<Json>, qqJson: ChatParser, qqTxt: ChatParser)
    ensures SupportedFormats(Parsers(jsonParse, qqJson, qqTxt)) == [
      FormatInfo("ChatLab JSON", "chatlab"),
      FormatInfo(qqJson.name, qqJson.platform),
      FormatInfo(qqTxt.name, qqTxt.platform)]
  {
  }

  /** A file the ChatLab detector accepts is parsed by the ChatLab parser,
      whatever the QQ detectors would have said. */
  lemma ChatlabHasPriority(
    jsonParse: string -> Option<Json>, qqJson: ChatParser, qqTxt: ChatParser,
    content: string, filename: string)
    requires ChatlabJsonParser.Detect(jsonParse, content, filename)
    ensures Dispatch(Parsers(jsonParse, qqJson, qqTxt), content, filename) ==
      ChatlabJsonParser.Parse(jsonParse, content, filename)
  {
  }

  /** A file the ChatLab detector rejects goes to QQ JSON if that accepts it,
      and to QQ text only when both JSON formats reject it. */
  lemma FallsThroughInOrder(
    jsonParse: string -> Option<Json>, qqJson: ChatParser, qqTxt: ChatParser,
    content: string, filename: string)
    requires !ChatlabJsonParser.Detect(jsonParse, content, filename)
    ensures qqJson.detect(content, filename) ==>
      Dispatch(Parsers(jsonParse, qqJson, qqTxt), content, filename) == qqJson.parse(content, filename)
    ensures !qqJson.detect(content, filename) && qqTxt.detect(content, filename) ==>
      Dispatch(Parsers(jsonParse, qqJson, qqTxt), content, filename) == qqTxt.parse(content, filename)
    ensures !qqJson.detect(content, filename) && !qqTxt.detect(content, filename) ==>
      Dispatch(Parsers(jsonParse, qqJson, qqTxt), content, filename) == Failure(UnrecognizedFormat(filename))
  {
  }
}
