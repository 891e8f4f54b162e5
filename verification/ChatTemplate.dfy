/** The served chat template (`chat_template.jinja`) and the model's own template it is derived from
    (`scripts/derive-chat-template.py`, stages A to C), as one renderer with two profiles. */
module ChatTemplate {
  import opened Wrappers

  datatype Item = Image | Video | TextItem(text: string) | UnknownItem

  /** Absent: none or undefined. Bad: neither a string nor a list. */
  datatype Content = Absent | Str(text: string) | Items(items: seq<Item>) | Bad

  datatype Role = System | Developer | User | Assistant | Tool | OtherRole(name: string)

  /** A string argument is rendered as it is, any other one as its JSON text. */
  datatype Value = StringValue(text: string) | JsonValue(json: string)

  datatype Arguments = NoArguments | Mapping(items: seq<(string, Value)>) | JsonString(text: string) | NotAnObject

  datatype ToolCall = ToolCall(name: Option<string>, arguments: Arguments)

  datatype Message = Message(role: Role, content: Content, reasoning: Option<string>, calls: seq<ToolCall>)

  /** A template variable that may hold anything: undefined, the two booleans, or some other value. */
  datatype Flag = Undefined | True | False | OtherValue

  datatype Options = Options(
    tools: seq<string>,
    enableThinking: Flag,
    preserveThinking: Flag,
    effort: Option<string>,
    addVisionId: bool,
    addGenerationPrompt: bool)

  /** The fixed prose: reasoning instructions and the tool preamble. No property depends on its wording. */
  datatype Wording = Wording(xhigh: string, low: string, toolsIntro: string, toolsFormat: string)

  datatype Profile = Derived | Source

  datatype Refusal =
    | NoMessages
    | SystemImage
    | SystemVideo
    | BadItem
    | BadContent
    | DiscardsThinking
    | DisablesThinking
    | BadEffort
    | SystemNotFirst
    | NoToolName
    | ArgumentsAsString
    | ArgumentsNotObject
    | BadRole

  /** Output. Markers are pieces only where the template writes them; request text that spells a marker
      stays inside a `Text`. */
  datatype Piece = ImStart | ImEnd | ResponseOpen | ResponseClose | Text(text: string)

  function PieceText(p: Piece): string {
    match p
    case ImStart => "<|im_start|>"
    case ImEnd => "<|im_end|>"
    case ResponseOpen => "<tool_response>"
    case ResponseClose => "</tool_response>"
    case Text(text) => text
  }

  /** The rendered prompt. */
  function Flat(pieces: seq<Piece>): string {
    if pieces == [] then "" else PieceText(pieces[0]) + Flat(pieces[1..])
  }

  // ----- strings -----

  /** What `str.strip` removes. */
  predicate IsSpace(c: char) {
    c in {' ', '\t', '\n', '\r', '\U{0B}', '\U{0C}', '\U{1C}', '\U{1D}', '\U{1E}', '\U{1F}', '\U{85}', '\U{A0}',
        '\U{1680}',
          '\U{2028}', '\U{2029}', '\U{202F}', '\U{205F}', '\U{3000}'}
    || '\U{2000}' <= c <= '\U{200A}'
  }

  function TrimLeft(s: string): string {
    if s != "" && IsSpace(s[0]) then TrimLeft(s[1..]) else s
  }

  function TrimRight(s: string): string {
    if s != "" && IsSpace(s[|s| - 1]) then TrimRight(s[..|s| - 1]) else s
  }

  /** `|trim`. */
  function Trim(s: string): string {
    TrimRight(TrimLeft(s))
  }

  /** The decimal digits of a count. */
  function Digits(n: nat): string {
    (if n < 10 then "" else Digits(n / 10)) + ["0123456789"[n % 10]]
  }

  // ----- content -----

  /** `image_count` and `video_count`. */
  datatype Counters = Counters(images: nat, videos: nat)

  /** How a content list is rendered: counted or not, as system content or not, with picture numbers or not. */
  datatype Mode = Mode(count: bool, system: bool, visionId: bool)

  function RenderItem(item: Item, mode: Mode, c: Counters): Result<(string, Counters), Refusal> {
    match item
    case Image =>
      if mode.system then Err(SystemImage)
      else
        var c' := if mode.count then c.(images := c.images + 1) else c;
        var title := if mode.visionId then "Picture " + Digits(c'.images) + ": " else "";
        Ok((title + "<|vision_start|><|image_pad|><|vision_end|>", c'))
    case Video =>
      if mode.system then Err(SystemVideo)
      else
        var c' := if mode.count then c.(videos := c.videos + 1) else c;
        var title := if mode.visionId then "Video " + Digits(c'.videos) + ": " else "";
        Ok((title + "<|vision_start|><|video_pad|><|vision_end|>", c'))
    case TextItem(text) => Ok((text, c))
    case UnknownItem => Err(BadItem)
  }

  function RenderItems(items: seq<Item>, mode: Mode, c: Counters): Result<(string, Counters), Refusal>
    decreases |items|
  {
    if items == [] then Ok(("", c))
    else
      var first :- RenderItem(items[0], mode, c);
      var rest :- RenderItems(items[1..], mode, first.1);
      Ok((first.0 + rest.0, rest.1))
  }

  /** `render_content(...)|trim`. */
  function RenderContent(content: Content, mode: Mode, c: Counters): Result<(string, Counters), Refusal> {
    match content
    case Absent => Ok(("", c))
    case Str(text) => Ok((Trim(text), c))
    case Items(items) =>
      var r :- RenderItems(items, mode, c);
      Ok((Trim(r.0), r.1))
    case Bad => Err(BadContent)
  }

  // ----- the system block -----

  predicate IsSystem(role: Role) {
    role == System || role == Developer
  }

  /** The leading system and developer messages: how many, and their nonblank contents joined by newlines. */
  function Merge(messages: seq<Message>, text: string): Result<(nat, string), Refusal>
    decreases |messages|
  {
    if messages == [] || !IsSystem(messages[0].role) then Ok((0, text))
    else
      var content :- RenderContent(messages[0].content, Mode(false, true, false), Counters(0, 0));
      var rest :- Merge(messages[1..], Joined(text, content.0));
      Ok((rest.0 + 1, rest.1))
  }

  function Joined(text: string, content: string): string {
    if content == "" then text else text + (if text == "" then "" else "\n") + content
  }

  /** The reasoning instructions a request gets, or its refusal. */
  function Instructions(profile: Profile, o: Options, w: Wording): Result<string, Refusal> {
    match profile
    case Derived =>
      if o.preserveThinking != Undefined && o.preserveThinking != True then Err(DiscardsThinking)
      else if o.enableThinking == False then Err(DisablesThinking)
      else if o.effort in {None, Some("xhigh"), Some("high"), Some("max")} then Ok(w.xhigh)
      else Err(BadEffort)
    case Source =>
      if o.enableThinking != Undefined && o.enableThinking != True then Ok("")
      else if o.effort in {None, Some("xhigh"), Some("high")} then Ok(w.xhigh)
      else if o.effort == Some("medium") then Ok("")
      else if o.effort == Some("low") then Ok(w.low)
      else Err(BadEffort)
  }

  function ToolLines(tools: seq<string>): seq<Piece> {
    if tools == [] then [] else [Text("\n"), Text(tools[0])] + ToolLines(tools[1..])
  }

  function Header(instructions: string, merged: string, o: Options, w: Wording): seq<Piece> {
    if o.tools != [] then
      [ImStart, Text("system\n")]
      + (if instructions != "" then [Text(instructions + "\n\n")] else [])
      + [Text(w.toolsIntro)] + ToolLines(o.tools) + [Text("\n</tools>"), Text(w.toolsFormat)]
      + (if merged != "" then [Text("\n\n" + merged)] else [])
      + [ImEnd, Text("\n")]
    else if merged != "" then
      [ImStart, Text("system\n")]
      + (if instructions != "" then [Text(instructions), Text("\n\n" + merged)] else [Text(merged)])
      + [ImEnd, Text("\n")]
    else if instructions != "" then [ImStart, Text("system\n"), Text(instructions), ImEnd, Text("\n")]
    else []
  }

  // ----- the last query -----

  /** A user message that only wraps a tool response is not a query. */
  predicate IsWrapped(content: string) {
    var open, close := "<tool_response>", "</tool_response>";
    open <= content && |close| <= |content| && content[|content| - |close|..] == close
  }

  /** The reverse loop: the index of the last user message that is a query. It reads user messages from the
      end until it has found one. */
  function LastQuery(messages: seq<Message>, visionId: bool): Result<Option<nat>, Refusal>
    decreases |messages|
  {
    if messages == [] then Ok(None)
    else
      var i := |messages| - 1;
      if messages[i].role != User then LastQuery(messages[..i], visionId)
      else
        var content :- RenderContent(messages[i].content, Mode(false, false, visionId), Counters(0, 0));
        if IsWrapped(content.0) then LastQuery(messages[..i], visionId) else Ok(Some(i))
  }

  // ----- tool calls -----

  function ValueText(v: Value): string {
    match v
    case StringValue(text) => text
    case JsonValue(json) => json
  }

  function RenderParameters(items: seq<(string, Value)>): string {
    if items == [] then ""
    else "<parameter=" + items[0].0 + ">\n" + ValueText(items[0].1) + "\n</parameter>\n" + RenderParameters(items[1..])
  }

  function ArgumentsText(arguments: Arguments): Result<string, Refusal> {
    match arguments
    case NoArguments => Ok("")
    case Mapping(items) => Ok(RenderParameters(items))
    case JsonString(text) => if Trim(text) != "" then Err(ArgumentsAsString) else Ok("")
    case NotAnObject => Err(ArgumentsNotObject)
  }

  function RenderCall(call: ToolCall): Result<string, Refusal> {
    if call.name == None then Err(NoToolName)
    else
      var arguments :- ArgumentsText(call.arguments);
      Ok("<tool_call>\n<function=" + call.name.value + ">\n" + arguments + "</function>\n</tool_call>")
  }

  /** All calls of a message, each but the first on a new line; `lead` comes before the first. */
  function RenderCalls(calls: seq<ToolCall>, lead: string): Result<string, Refusal>
    decreases |calls|
  {
    if calls == [] then Ok("")
    else
      var first :- RenderCall(calls[0]);
      var rest :- RenderCalls(calls[1..], "\n");
      Ok(lead + first + rest)
  }

  // ----- messages -----

  /** How an assistant turn with reasoning opens, in the history and in the generation prompt alike. */
  function ThinkOpen(): seq<Piece> {
    [ImStart, Text("assistant\n"), Text("<think>\n")]
  }

  /** An assistant turn, with or without its reasoning. */
  function AssistantTurn(message: Message, content: string, retained: bool): Result<seq<Piece>, Refusal> {
    var reasoning := if message.reasoning.Some? then Trim(message.reasoning.value) else "";
    var calls :- RenderCalls(message.calls, if content != "" then "\n\n" else "");
    Ok((if retained then ThinkOpen() + [Text(reasoning), Text("\n</think>\n\n")] else [ImStart, Text("assistant\n")])
       + [Text(content), Text(calls), ImEnd, Text("\n")])
  }

  predicate IsTool(role: Option<Role>) {
    role == Some(Tool)
  }

  function ToolOpening(prev: Option<Role>): seq<Piece> {
    if prev != None && !IsTool(prev) then [ImStart, Text("user")] else []
  }

  function ToolBlock(content: string): seq<Piece> {
    [Text("\n"), ResponseOpen, Text("\n"), Text(content), Text("\n"), ResponseClose]
  }

  function ToolClosing(next: Option<Role>): seq<Piece> {
    if !IsTool(next) then [ImEnd, Text("\n")] else []
  }

  /** One message behind the leading system messages, between its neighbours. */
  function RenderMessage(message: Message, prev: Option<Role>, next: Option<Role>, retained: bool, visionId: bool,
                         c: Counters)
    : Result<(seq<Piece>, Counters), Refusal>
  {
    var content :- RenderContent(message.content, Mode(true, false, visionId), c);
    match message.role
    case User => Ok(([ImStart, Text("user\n"), Text(content.0), ImEnd, Text("\n")], content.1))
    case Assistant =>
      var turn :- AssistantTurn(message, content.0, retained);
      Ok((turn, content.1))
    case Tool => Ok((ToolOpening(prev) + ToolBlock(content.0) + ToolClosing(next), content.1))
    case OtherRole(_) => Err(BadRole)
    case _ => Err(SystemNotFirst)
  }

  function RoleAt(messages: seq<Message>, after: Option<Role>): Option<Role> {
    if messages == [] then after else Some(messages[0].role)
  }

  /** The message loop from index `at` on. Reasoning is retained behind index `cut` (everywhere if `cut` is
      -1); `after` is the role of what follows the last message. */
  function Body(messages: seq<Message>, at: nat, cut: int, prev: Option<Role>, after: Option<Role>, visionId: bool,
                c: Counters)
    : Result<(seq<Piece>, Counters), Refusal>
    decreases |messages|
  {
    if messages == [] then Ok(([], c))
    else
      var first :- RenderMessage(messages[0], prev, RoleAt(messages[1..], after), at > cut, visionId, c);
      var rest :- Body(messages[1..], at + 1, cut, Some(messages[0].role), after, visionId, first.1);
      Ok((first.0 + rest.0, rest.1))
  }

  function RoleBefore(messages: seq<Message>, i: nat): Option<Role>
    requires i <= |messages|
  {
    if i == 0 then None else Some(messages[i - 1].role)
  }

  /** Reasoning is cut at the last query only by the source, and only if the request does not preserve it. */
  function Cut(profile: Profile, o: Options, messages: seq<Message>, lastQuery: Option<nat>): int {
    if profile == Derived || o.preserveThinking == Undefined || o.preserveThinking == True then -1
    else if lastQuery.Some? then lastQuery.value else |messages| - 1
  }

  function GenerationPrompt(profile: Profile, o: Options): seq<Piece> {
    if !o.addGenerationPrompt then []
    else if profile == Source && o.enableThinking == False then
      [ImStart, Text("assistant\n"), Text("<think>\n\n</think>\n\n")]
    else ThinkOpen()
  }

  function Render(profile: Profile, messages: seq<Message>, o: Options, w: Wording): Result<seq<Piece>, Refusal> {
    if messages == [] then Err(NoMessages)
    else
      var merged :- Merge(messages, "");
      var instructions :- Instructions(profile, o, w);
      var lastQuery :- LastQuery(messages, o.addVisionId);
      MergeCounts(messages, "");
      var n := merged.0;
      var cut := Cut(profile, o, messages, lastQuery);
      var body :- Body(messages[n..], n, cut, RoleBefore(messages, n), None, o.addVisionId, Counters(0, 0));
      Ok(Header(instructions, merged.1, o, w) + body.0 + GenerationPrompt(profile, o))
  }

  lemma {:induction false} MergeCounts(messages: seq<Message>, text: string)
    ensures Merge(messages, text).Ok? ==>
              && Merge(messages, text).value.0 <= |messages|
              && (forall i | 0 <= i < Merge(messages, text).value.0 :: IsSystem(messages[i].role))
              && (Merge(messages, text).value.0 < |messages| ==>
                    !IsSystem(messages[Merge(messages, text).value.0].role))
    decreases |messages|
  {
    if messages != [] && IsSystem(messages[0].role)
       && RenderContent(messages[0].content, Mode(false, true, false), Counters(0, 0)).Ok? {
      var content := RenderContent(messages[0].content, Mode(false, true, false), Counters(0, 0)).value;
      MergeCounts(messages[1..], Joined(text, content.0));
    }
  }
}
