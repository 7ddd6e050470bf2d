/**
 * Two imports worked end to end through the registry: a small ChatLab export,
 * and a JSON file that no format recognises.
 */
module ImportScenarios {
  import opened Wrappers
  import opened JsValues
  import opened ChatModel
  import ChatlabJsonParser
  import opened ParserRegistry

  /** The value of
      `{"chatlab":{"version":"1.0"},"meta":{"name":"Team"},
        "members":[{"platformId":"u1","name":"Alice"}],
        "messages":[{"sender":"u1","name":"Alice","timestamp":1700000000,"type":"text","content":"hi"}]}`. */
  function TeamExport(): Json {
    JObject(map[
      "chatlab" := JObject(map["version" := JString("1.0")]),
      "meta" := JObject(map["name" := JString("Team")]),
      "members" := JArray([JObject(map["platformId" := JString("u1"), "name" := JString("Alice")])]),
      "messages" := JArray([JObject(map[
        "sender" := JString("u1"), "name" := JString("Alice"), "timestamp" := JNumber(1700000000.0),
        "type" := JString("text"), "content" := JString("hi")])])
    ])
  }

  /** The result the team export normalizes to. */
  function TeamResult(): ParseResult {
    ParseResult(
      ConversationMeta(Defined(JString("Team")), PlatformUnknown, ChatTypeGroup),
      [ParsedMember(Defined(JString("u1")), Defined(JString("Alice")))],
      [ParsedMessage(Defined(JString("u1")), Defined(JString("Alice")), Defined(JNumber(1700000000.0)),
                     Defined(JString("text")), Defined(JString("hi")))])
  }

  lemma ExportNameIsJson()
    ensures ChatlabJsonParser.EndsWith(ChatlabJsonParser.LowerAscii("export.json"), ".json")
  {
    assert ChatlabJsonParser.LowerAscii("export.json") == "export.json";
  }

  /** The ChatLab parser maps the team export field by field. */
  lemma TeamExportParses(jsonParse: string -> Option<Json>, content: string)
    requires jsonParse(content) == Some(TeamExport())
    ensures ChatlabJsonParser.Parse(jsonParse, content, "export.json") == Success(TeamResult())
  {
    var d := TeamExport();
    var member := d.fields["members"].items[0];
    var message := d.fields["messages"].items[0];
    assert FieldOf(member, "platformId") == Defined(JString("u1"));
    assert FieldOf(member, "name") == Defined(JString("Alice"));
    var members := ChatlabJsonParser.MapMembers([member]);
    assert members.Success? && |members.value| == 1;
    assert [member][0] == member;
    assert members.value[0] == TeamResult().members[0];
    assert members.value == [members.value[0]];
    assert members == Success(TeamResult().members);
    assert FieldOf(message, "sender") == Defined(JString("u1"));
    assert FieldOf(message, "name") == Defined(JString("Alice"));
    assert FieldOf(message, "timestamp") == Defined(JNumber(1700000000.0));
    assert FieldOf(message, "type") == Defined(JString("text"));
    assert FieldOf(message, "content") == Defined(JString("hi"));
    var messages := ChatlabJsonParser.MapMessages([message]);
    assert messages.Success? && |messages.value| == 1;
    assert [message][0] == message;
    assert messages.value[0] == TeamResult().messages[0];
    assert messages.value == [messages.value[0]];
    assert messages == Success(TeamResult().messages);
    assert FieldOf(d.fields["meta"], "platform") == Undefined;
    assert FieldOf(d.fields["meta"], "type") == Undefined;
  }

  /** `export.json` holding the team export is claimed by the ChatLab format
      and normalized with the default platform and conversation type. */
  lemma TeamExportImports(
    jsonParse: string -> Option<Json>, qqJson: ChatParser, qqTxt: ChatParser, content: string)
    requires jsonParse(content) == Some(TeamExport())
    ensures ChatlabJsonParser.Detect(jsonParse, content, "export.json")
    ensures Dispatch(Parsers(jsonParse, qqJson, qqTxt), content, "export.json") == Success(TeamResult())
  {
    ExportNameIsJson();
    ChatlabJsonParser.DetectExactly(jsonParse, content, "export.json");
    TeamExportParses(jsonParse, content);
    ChatlabHasPriority(jsonParse, qqJson, qqTxt, content, "export.json");
  }

  /** `{"foo":"bar"}` in `export.json` is not a ChatLab export; when the QQ
      formats reject it too, the import fails naming `export.json`. */
  lemma ForeignJsonIsUnrecognized(
    jsonParse: string -> Option<Json>, qqJson: ChatParser, qqTxt: ChatParser, content: string)
    requires jsonParse(content) == Some(JObject(map["foo" := JString("bar")]))
    requires !qqJson.detect(content, "export.json") && !qqTxt.detect(content, "export.json")
    ensures !ChatlabJsonParser.Detect(jsonParse, content, "export.json")
    ensures Dispatch(Parsers(jsonParse, qqJson, qqTxt), content, "export.json") ==
      Failure(UnrecognizedFormat("export.json"))
  {
  }
}
