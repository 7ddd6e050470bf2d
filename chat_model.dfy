/**
 * The normalized result every chat-export parser produces, the errors an
 * import can end in, and the shape of a registered parser.
 */
module ChatModel {
  import opened Wrappers
  import opened JsValues

  /** Session-level information. `name` is copied as read; `platform` and
      `chatType` are the source value when truthy, otherwise a default tag. */
  datatype ConversationMeta = ConversationMeta(name: Val, platform: Json, chatType: Json)

  /** A participant, with the fields copied from the source member unchecked. */
  datatype ParsedMember = ParsedMember(platformId: Val, name: Val)

  /** One chat event, with the fields copied from the source message unchecked. */
  datatype ParsedMessage = ParsedMessage(
    senderPlatformId: Val,
    senderName: Val,
    timestamp: Val,
    msgType: Val,
    content: Val)

  datatype ParseResult = ParseResult(
    meta: ConversationMeta,
    members: seq<ParsedMember>,
    messages: seq<ParsedMessage>)

  /** The fallback tags `ChatPlatform.UNKNOWN` and `ChatType.GROUP`. */
  const PlatformUnknown: Json := JString("unknown")
  const ChatTypeGroup: Json := JString("group")

  /** How an import fails. */
  datatype ImportError =
      /** `JSON.parse` threw while parsing. */
    | JsonSyntaxError
      /** The ChatLab parser found `chatlab`, `meta` or `messages` unusable. */
    | InvalidChatlabFormat
      /** The runtime threw: a property read on `undefined`/`null`, or `.map`
          called on something that is not an array. */
    | RuntimeTypeError
      /** An error raised by one of the other registered parsers. */
    | FormatError(message: string)
      /** No registered parser recognised the file. */
    | UnrecognizedFormat(filename: string)
  {
    /** The text the error carries. */
    function Message(): string {
      match this
      case JsonSyntaxError => "JSON 解析失败: "
      case InvalidChatlabFormat => "无效的 ChatLab JSON 格式"
      case RuntimeTypeError => "TypeError"
      case FormatError(m) => m
      case UnrecognizedFormat(f) => "无法识别文件格式: " + f
    }
  }

  /** A registered format: its descriptor and its detect/parse pair. */
  datatype ChatParser = ChatParser(
    name: string,
    platform: string,
    detect: (string, string) -> bool,
    parse: (string, string) -> Result<ParseResult, ImportError>)

  /** The `{ name, platform }` pair listed for a registered format. */
  datatype FormatInfo = FormatInfo(name: string, platform: string)
}
