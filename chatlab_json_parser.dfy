/**
 * The ChatLab JSON format: the detector that recognises a ChatLab export by its
 * file name and top-level shape, and the parser that maps it onto the
 * normalized result. `JSON.parse` is the parameter `jsonParse`, so every
 * property below holds whatever the JSON library makes of the text.
 */
module ChatlabJsonParser {
  import opened Wrappers
  import opened JsValues
  import opened ChatModel

  const Name: string := "ChatLab JSON"
  const Platform: string := "chatlab"

  /** `toLowerCase` on one character, for the ASCII letters. */
  function LowerChar(c: char): char {
    if 'A' <= c <= 'Z' then (c as int + 32) as char else c
  }

  function LowerAscii(s: string): string {
    seq(|s|, i requires 0 <= i < |s| => LowerChar(s[i]))
  }

  predicate EndsWith(s: string, suffix: string) {
    |suffix| <= |s| && s[|s| - |suffix|..] == suffix
  }

  // ---------------------------------------------------------------- detect

  /** The expression inside the `try` of `detect`, evaluated from left to right
      with JavaScript's short-circuiting `&&`; `None` is an error the `catch`
      swallows. */
  function ShapeProbe(data: Val): Option<bool> {
    match Prop(data, "chatlab")
    case None => None
    case Some(chatlab) =>
      // `data` is now known to be neither undefined nor null, and a truthy
      // `chatlab` is neither either, so no later read can throw.
      if !Truthy(chatlab) then Some(false)
      else if !IsString(FieldOf(chatlab.json, "version")) then Some(false)
      else if !Truthy(FieldOf(data.json, "meta")) then Some(false)
      else if !IsArray(FieldOf(data.json, "members")) then Some(false)
      else Some(IsArray(FieldOf(data.json, "messages")))
  }

  /** `chatlabJsonParser.detect`: a suffix test on the file name, then a probe of
      the parsed content. Any error inside the probe yields `false`. */
  function Detect(jsonParse: string -> Option<Json>, content: string, filename: string): bool {
    var lower := LowerAscii(filename);
    if !EndsWith(lower, ".json") && !EndsWith(lower, ".chatlab.json") then false
    else
      match jsonParse(content)
      case None => false
      case Some(data) => ShapeProbe(Defined(data)) == Some(true)
  }

  /** The top-level shape a ChatLab export has, stated on the JSON value itself. */
  ghost predicate HasChatlabShape(d: Json) {
    && Truthy(FieldOf(d, "chatlab"))
    && IsString(FieldOf(FieldOf(d, "chatlab").json, "version"))
    && Truthy(FieldOf(d, "meta"))
    && IsArray(FieldOf(d, "members"))
    && IsArray(FieldOf(d, "messages"))
  }

  lemma ChatlabSuffixIsJsonSuffix(s: string)
    ensures EndsWith(s, ".chatlab.json") ==> EndsWith(s, ".json")
  {
  }

  /** `detect` accepts exactly the files whose lower-cased name ends in `.json`
      and whose content parses to a value of the ChatLab shape. */
  lemma DetectExactly(jsonParse: string -> Option<Json>, content: string, filename: string)
    ensures Detect(jsonParse, content, filename) <==>
      && EndsWith(LowerAscii(filename), ".json")
      && jsonParse(content).Some?
      && HasChatlabShape(jsonParse(content).value)
  {
  }

  /** The `catch` of `detect`: content that does not parse is never accepted. */
  lemma DetectRejectsUnparsable(jsonParse: string -> Option<Json>, content: string, filename: string)
    requires jsonParse(content).None?
    ensures !Detect(jsonParse, content, filename)
  {
  }

  /** A file name not ending in `.json`, ignoring case, is rejected before the
      content is looked at. */
  lemma DetectNeedsJsonSuffix(jsonParse: string -> Option<Json>, content: string, filename: string)
    requires !EndsWith(LowerAscii(filename), ".json")
    ensures !Detect(jsonParse, content, filename)
  {
  }

  // ----------------------------------------------------------------- parse

  /** A property read inside `parse`, where a thrown TypeError propagates. */
  function Read(v: Val, key: string): Result<Val, ImportError>
    requires key in ReadKeys
  {
    match Prop(v, key)
    case None => Failure(RuntimeTypeError)
    case Some(x) => Success(x)
  }

  /** True when no element of a JSON array is `null` (reading a field of a
      `null` element throws). */
  predicate NoNulls(items: seq<Json>) {
    forall i :: 0 <= i < |items| ==> items[i] != JNull
  }

  /** The callback of `data.members.map`: only the first read can throw. */
  function ConvertMember(m: Json): Result<ParsedMember, ImportError> {
    match Read(Defined(m), "platformId")
    case Failure(e) => Failure(e)
    case Success(platformId) => Success(ParsedMember(platformId, FieldOf(m, "name")))
  }

  /** The callback of `data.messages.map`: only the first read can throw. */
  function ConvertMessage(msg: Json): Result<ParsedMessage, ImportError> {
    match Read(Defined(msg), "sender")
    case Failure(e) => Failure(e)
    case Success(sender) =>
      Success(ParsedMessage(
        sender, FieldOf(msg, "name"), FieldOf(msg, "timestamp"), FieldOf(msg, "type"), FieldOf(msg, "content")))
  }

  /** `data.members.map(...)` over the elements of the array. */
  function MapMembers(items: seq<Json>): (r: Result<seq<ParsedMember>, ImportError>)
    ensures r.Success? <==> NoNulls(items)
    ensures r.Failure? ==> r.error == RuntimeTypeError
    ensures r.Success? ==> |r.value| == |items|
    ensures r.Success? ==> forall i :: 0 <= i < |items| ==>
      r.value[i] == ParsedMember(FieldOf(items[i], "platformId"), FieldOf(items[i], "name"))
  {
    if items == [] then Success([])
    else
      var head :- ConvertMember(items[0]);
      var tail :- MapMembers(items[1..]);
      assert forall i :: 1 <= i < |items| ==> items[i] == items[1..][i - 1];
      Success([head] + tail)
  }

  /** `data.messages.map(...)` over the elements of the array. */
  function MapMessages(items: seq<Json>): (r: Result<seq<ParsedMessage>, ImportError>)
    ensures r.Success? <==> NoNulls(items)
    ensures r.Failure? ==> r.error == RuntimeTypeError
    ensures r.Success? ==> |r.value| == |items|
    ensures r.Success? ==> forall i :: 0 <= i < |items| ==>
      r.value[i] == ParsedMessage(
        FieldOf(items[i], "sender"), FieldOf(items[i], "name"), FieldOf(items[i], "timestamp"),
        FieldOf(items[i], "type"), FieldOf(items[i], "content"))
  {
    if items == [] then Success([])
    else
      var head :- ConvertMessage(items[0]);
      var tail :- MapMessages(items[1..]);
      assert forall i :: 1 <= i < |items| ==> items[i] == items[1..][i - 1];
      Success([head] + tail)
  }

  /** The part of `parse` after `JSON.parse` succeeded: the required-key check,
      then the metadata, the members and the messages, in that order. */
  function Convert(data: Val): Result<ParseResult, ImportError> {
    match Read(data, "chatlab")
    case Failure(e) => Failure(e)
    case Success(chatlab) =>
      // From here on `data` is neither undefined nor null, and `meta` is truthy
      // before it is read from, so the only reads that can throw are the
      // element reads inside the two maps.
      var meta := FieldOf(data.json, "meta");
      var messages := FieldOf(data.json, "messages");
      var members := FieldOf(data.json, "members");
      if !Truthy(chatlab) || !Truthy(meta) || !IsArray(messages) then Failure(InvalidChatlabFormat)
      else
        var info := ConversationMeta(
          FieldOf(meta.json, "name"),
          OrElse(FieldOf(meta.json, "platform"), PlatformUnknown),
          OrElse(FieldOf(meta.json, "type"), ChatTypeGroup));
        if !IsArray(members) then Failure(RuntimeTypeError)
        else
          match MapMembers(members.json.items)
          case Failure(e) => Failure(e)
          case Success(memberList) =>
            match MapMessages(messages.json.items)
            case Failure(e) => Failure(e)
            case Success(messageList) => Success(ParseResult(info, memberList, messageList))
  }

  /** `chatlabJsonParser.parse`. */
  function Parse(jsonParse: string -> Option<Json>, content: string, filename: string)
    : Result<ParseResult, ImportError>
  {
    match jsonParse(content)
    case None => Failure(JsonSyntaxError)
    case Some(data) => Convert(Defined(data))
  }

  /** The checks `parse` makes before converting anything. */
  ghost predicate PassesRequiredKeys(d: Json) {
    Truthy(FieldOf(d, "chatlab")) && Truthy(FieldOf(d, "meta")) && IsArray(FieldOf(d, "messages"))
  }

  /** Everything `parse` needs to succeed: the required keys, a `members` array,
      and no `null` element in either array. */
  ghost predicate Convertible(d: Json) {
    && PassesRequiredKeys(d)
    && IsArray(FieldOf(d, "members"))
    && NoNulls(FieldOf(d, "members").json.items)
    && NoNulls(FieldOf(d, "messages").json.items)
  }

  /** How `parse` fails: a JSON syntax error exactly when `JSON.parse` fails,
      "invalid format" exactly when a required key is unusable, and a runtime
      TypeError otherwise. */
  lemma ParseErrors(jsonParse: string -> Option<Json>, content: string, filename: string)
    ensures Parse(jsonParse, content, filename) == Failure(JsonSyntaxError) <==> jsonParse(content).None?
    ensures Parse(jsonParse, content, filename) == Failure(InvalidChatlabFormat) <==>
      jsonParse(content).Some? && jsonParse(content).value != JNull &&
      !PassesRequiredKeys(jsonParse(content).value)
    ensures Parse(jsonParse, content, filename).Failure? ==>
      Parse(jsonParse, content, filename).error in {JsonSyntaxError, InvalidChatlabFormat, RuntimeTypeError}
    ensures Parse(jsonParse, content, filename).Success? <==>
      jsonParse(content).Some? && Convertible(jsonParse(content).value)
  {
    match jsonParse(content)
    case None =>
    case Some(d) =>
  }

  /** What a successful `parse` returns: the metadata with its defaults, and the
      members and messages one-to-one, in source order, with their fields
      renamed and copied unchanged. */
  lemma ParseNormalizes(jsonParse: string -> Option<Json>, content: string, filename: string)
    requires Parse(jsonParse, content, filename).Success?
    ensures jsonParse(content).Some?
    ensures
      var d := jsonParse(content).value;
      var meta := FieldOf(d, "meta").json;
      var members := FieldOf(d, "members").json.items;
      var messages := FieldOf(d, "messages").json.items;
      var r := Parse(jsonParse, content, filename).value;
      && r.meta.name == FieldOf(meta, "name")
      && (Truthy(FieldOf(meta, "platform")) ==> Defined(r.meta.platform) == FieldOf(meta, "platform"))
      && (!Truthy(FieldOf(meta, "platform")) ==> r.meta.platform == PlatformUnknown)
      && (Truthy(FieldOf(meta, "type")) ==> Defined(r.meta.chatType) == FieldOf(meta, "type"))
      && (!Truthy(FieldOf(meta, "type")) ==> r.meta.chatType == ChatTypeGroup)
      && |r.members| == |members|
      && (forall i :: 0 <= i < |members| ==>
            r.members[i].platformId == FieldOf(members[i], "platformId") &&
            r.members[i].name == FieldOf(members[i], "name"))
      && |r.messages| == |messages|
      && (forall i :: 0 <= i < |messages| ==>
            r.messages[i].senderPlatformId == FieldOf(messages[i], "sender") &&
            r.messages[i].senderName == FieldOf(messages[i], "name") &&
            r.messages[i].timestamp == FieldOf(messages[i], "timestamp") &&
            r.messages[i].msgType == FieldOf(messages[i], "type") &&
            r.messages[i].content == FieldOf(messages[i], "content"))
  {
  }

  /** Detection and parsing agree: content `detect` accepts passes the key
      check of `parse`, and converts unless an array holds a `null`. */
  lemma DetectedPassesParseChecks(jsonParse: string -> Option<Json>, content: string, filename: string)
    requires Detect(jsonParse, content, filename)
    ensures Parse(jsonParse, content, filename) != Failure(JsonSyntaxError)
    ensures Parse(jsonParse, content, filename) != Failure(InvalidChatlabFormat)
    ensures
      var d := jsonParse(content).value;
      NoNulls(FieldOf(d, "members").json.items) && NoNulls(FieldOf(d, "messages").json.items) ==>
        Parse(jsonParse, content, filename).Success?
  {
  }

  /** `parse` does not check `members`: content without a `members` array but
      with the required keys gets past the key check and fails at `.map`,
      while `detect` rejects it. */
  lemma MissingMembersFailsAtMap(jsonParse: string -> Option<Json>, content: string, filename: string)
    requires jsonParse(content).Some?
    requires PassesRequiredKeys(jsonParse(content).value)
    requires !IsArray(FieldOf(jsonParse(content).value, "members"))
    ensures Parse(jsonParse, content, filename) == Failure(RuntimeTypeError)
    ensures !Detect(jsonParse, content, filename)
  {
  }

  /** The registered descriptor of the format, with its detect/parse pair. */
  function Parser(jsonParse: string -> Option<Json>): (p: ChatParser)
    ensures p.name == "ChatLab JSON" && p.platform == "chatlab"
    ensures forall c, f :: p.detect(c, f) == Detect(jsonParse, c, f)
    ensures forall c, f :: p.parse(c, f) == Parse(jsonParse, c, f)
  {
    ChatParser(Name, Platform, (c, f) => Detect(jsonParse, c, f), (c, f) => Parse(jsonParse, c, f))
  }
}
