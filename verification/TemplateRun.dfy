/** The template as it runs (`chat_template.jinja`): loops over the messages that update the namespaces and append
    to the output, proved to produce exactly `ChatTemplate.Render`. */
module TemplateRun {
  import opened Wrappers
  import opened ChatTemplate

  // ----- what a loop has left to do -----

  function WithText(text: string, rest: Result<(string, Counters), Refusal>): Result<(string, Counters), Refusal> {
    match rest
    case Ok(r) => Ok((text + r.0, r.1))
    case Err(e) => Err(e)
  }

  function WithPieces(pieces: seq<Piece>, rest: Result<(seq<Piece>, Counters), Refusal>)
    : Result<(seq<Piece>, Counters), Refusal>
  {
    match rest
    case Ok(r) => Ok((pieces + r.0, r.1))
    case Err(e) => Err(e)
  }

  function WithCount(count: nat, rest: Result<(nat, string), Refusal>): Result<(nat, string), Refusal> {
    match rest
    case Ok(r) => Ok((count + r.0, r.1))
    case Err(e) => Err(e)
  }

  function WithCalls(text: string, rest: Result<string, Refusal>): Result<string, Refusal> {
    match rest
    case Ok(r) => Ok(text + r)
    case Err(e) => Err(e)
  }

  lemma {:induction false} NothingAdded(rest: Result<(string, Counters), Refusal>)
    ensures WithText("", rest) == rest
  {
    if rest.Ok? { assert "" + rest.value.0 == rest.value.0; }
  }

  lemma {:induction false} NoCallsAdded(rest: Result<string, Refusal>)
    ensures WithCalls("", rest) == rest
  {
    if rest.Ok? { assert "" + rest.value == rest.value; }
  }

  lemma {:induction false} ItemsStep(items: seq<Item>, i: nat, mode: Mode, text: string, c: Counters)
    requires i < |items|
    ensures WithText(text, RenderItems(items[i..], mode, c))
         == match RenderItem(items[i], mode, c)
            case Ok(r) => WithText(text + r.0, RenderItems(items[i + 1..], mode, r.1))
            case Err(e) => Err(e)
  {
    assert items[i..][0] == items[i] && items[i..][1..] == items[i + 1..];
    if RenderItem(items[i], mode, c).Ok? {
      var first := RenderItem(items[i], mode, c).value;
      if RenderItems(items[i + 1..], mode, first.1).Ok? {
        var rest := RenderItems(items[i + 1..], mode, first.1).value;
        assert text + (first.0 + rest.0) == text + first.0 + rest.0;
      }
    }
  }

  lemma {:induction false} ParametersStep(items: seq<(string, Value)>, i: nat, text: string)
    requires i < |items|
    ensures text + RenderParameters(items[i..])
         == text + "<parameter=" + items[i].0 + ">\n" + ValueText(items[i].1) + "\n</parameter>\n"
             + RenderParameters(items[i + 1..])
  {
    assert items[i..][0] == items[i] && items[i..][1..] == items[i + 1..];
    var rest := RenderParameters(items[i + 1..]);
    var name, value := items[i].0, ValueText(items[i].1);
    var one := "<parameter=" + name + ">\n" + value + "\n</parameter>\n";
    assert RenderParameters(items[i..]) == one + rest;
    assert text + "<parameter=" + name + ">\n" + value + "\n</parameter>\n" == text + one;
    assert text + (one + rest) == text + one + rest;
  }

  lemma {:induction false} CallsStep(calls: seq<ToolCall>, i: nat, lead: string, text: string)
    requires i < |calls|
    ensures WithCalls(text, RenderCalls(calls[i..], lead))
         == match RenderCall(calls[i])
            case Ok(r) => WithCalls(text + lead + r, RenderCalls(calls[i + 1..], "\n"))
            case Err(e) => Err(e)
  {
    assert calls[i..][0] == calls[i] && calls[i..][1..] == calls[i + 1..];
    if RenderCall(calls[i]).Ok? && RenderCalls(calls[i + 1..], "\n").Ok? {
      var first, rest := RenderCall(calls[i]).value, RenderCalls(calls[i + 1..], "\n").value;
      assert text + (lead + first + rest) == text + lead + first + rest;
    }
  }

  lemma {:induction false} MergeStep(messages: seq<Message>, i: nat, text: string)
    requires i < |messages|
    ensures WithCount(i, Merge(messages[i..], text))
         == if !IsSystem(messages[i].role) then Ok((i, text))
            else
              match RenderContent(messages[i].content, Mode(false, true, false), Counters(0, 0))
              case Ok(r) => WithCount(i + 1, Merge(messages[i + 1..], Joined(text, r.0)))
              case Err(e) => Err(e)
  {
    assert messages[i..][0] == messages[i] && messages[i..][1..] == messages[i + 1..];
  }

  lemma {:induction false} BodyStep(messages: seq<Message>, i: nat, pieces: seq<Piece>, v: bool, c: Counters)
    requires i < |messages|
    ensures WithPieces(pieces, Body(messages[i..], i, -1, RoleBefore(messages, i), None, v, c))
         == match RenderMessage(messages[i], RoleBefore(messages, i), RoleAt(messages[i + 1..], None), true, v, c)
            case Ok(r) => WithPieces(pieces + r.0, Body(messages[i + 1..], i + 1, -1, RoleBefore(messages, i + 1),
                None, v, r.1))
            case Err(e) => Err(e)
  {
    assert messages[i..][0] == messages[i] && messages[i..][1..] == messages[i + 1..];
    var first := RenderMessage(messages[i], RoleBefore(messages, i), RoleAt(messages[i + 1..], None), true, v, c);
    if first.Ok? {
      var rest := Body(messages[i + 1..], i + 1, -1, RoleBefore(messages, i + 1), None, v, first.value.1);
      if rest.Ok? {
        assert pieces + (first.value.0 + rest.value.0) == pieces + first.value.0 + rest.value.0;
      }
    }
  }

  /** The template's namespaces and its output. */
  class Rendering {
    var images: nat
    var videos: nat
    var output: seq<Piece>

    constructor ()
      ensures Count() == Counters(0, 0) && output == []
    {
      images, videos, output := 0, 0, [];
    }

    function Count(): Counters
      reads this
    {
      Counters(images, videos)
    }

    /** One item of a content list: what it adds to the text. */
    method RenderOne(item: Item, mode: Mode) returns (r: Result<string, Refusal>)
      modifies `images, `videos
      ensures r.Ok? ==> RenderItem(item, mode, old(Count())) == Ok((r.value, Count()))
      ensures r.Err? ==> RenderItem(item, mode, old(Count())) == Err(r.error)
      ensures !mode.count ==> Count() == old(Count())
    {
      match item
      case Image =>
        if mode.system { return Err(SystemImage); }
        if mode.count { images := images + 1; }
        r := Ok((if mode.visionId then "Picture " + Digits(images) + ": " else "")
                + "<|vision_start|><|image_pad|><|vision_end|>");
      case Video =>
        if mode.system { return Err(SystemVideo); }
        if mode.count { videos := videos + 1; }
        r := Ok((if mode.visionId then "Video " + Digits(videos) + ": " else "")
                + "<|vision_start|><|video_pad|><|vision_end|>");
      case TextItem(t) => r := Ok(t);
      case UnknownItem => r := Err(BadItem);
    }

    /** The macro's loop over a content list. A refusal leaves counters that nothing reads any more. */
    method RenderList(items: seq<Item>, mode: Mode) returns (r: Result<string, Refusal>)
      modifies `images, `videos
      ensures r.Ok? ==> RenderItems(items, mode, old(Count())) == Ok((r.value, Count()))
      ensures r.Err? ==> RenderItems(items, mode, old(Count())) == Err(r.error)
      ensures !mode.count ==> Count() == old(Count())
    {
      var text := "";
      assert items[0..] == items;
      NothingAdded(RenderItems(items, mode, Count()));
      for i := 0 to |items|
        invariant RenderItems(items, mode, old(Count())) == WithText(text, RenderItems(items[i..], mode, Count()))
        invariant !mode.count ==> Count() == old(Count())
      {
        ItemsStep(items, i, mode, text, Count());
        var one := RenderOne(items[i], mode);
        if one.Err? { return one; }
        text := text + one.value;
      }
      assert items[|items|..] == [];
      assert text + "" == text;
      r := Ok(text);
    }

    /** `render_content(...)|trim` */
    method RenderTrimmed(content: Content, mode: Mode) returns (r: Result<string, Refusal>)
      modifies `images, `videos
      ensures r.Ok? ==> RenderContent(content, mode, old(Count())) == Ok((r.value, Count()))
      ensures r.Err? ==> RenderContent(content, mode, old(Count())) == Err(r.error)
      ensures !mode.count ==> Count() == old(Count())
    {
      match content
      case Absent => r := Ok("");
      case Str(text) => r := Ok(Trim(text));
      case Items(items) =>
        r := RenderList(items, mode);
        if r.Ok? { r := Ok(Trim(r.value)); }
      case Bad => r := Err(BadContent);
    }

    /** The system loop: it visits every message, and counts those that continue the leading run. */
    method MergeSystem(messages: seq<Message>) returns (r: Result<(nat, string), Refusal>)
      requires Count() == Counters(0, 0)
      modifies `images, `videos
      ensures r == Merge(messages, "") && (r.Ok? ==> Count() == Counters(0, 0))
    {
      var count, text := 0, "";
      for i := 0 to |messages|
        invariant count <= i && Count() == Counters(0, 0)
        invariant Merge(messages, "") == if count == i then WithCount(i, Merge(messages[i..], text))
            else Ok((count, text))
      {
        if count == i {
          MergeStep(messages, i, text);
          if IsSystem(messages[i].role) {
            var content := RenderTrimmed(messages[i].content, Mode(false, true, false));
            if content.Err? { return Err(content.error); }
            if content.value != "" {
              text := text + (if text == "" then "" else "\n") + content.value;
            }
            count := count + 1;
          }
        }
      }
      assert messages[|messages|..] == [];
      r := Ok((count, text));
    }

    /** The reverse loop. */
    method FindLastQuery(messages: seq<Message>, visionId: bool) returns (r: Result<Option<nat>, Refusal>)
      requires Count() == Counters(0, 0)
      modifies `images, `videos
      ensures r == LastQuery(messages, visionId) && (r.Ok? ==> Count() == Counters(0, 0))
    {
      var multiStepTool, last := true, |messages| - 1;
      assert messages[..|messages|] == messages;
      for index := |messages| downto 0
        invariant Count() == Counters(0, 0)
        invariant multiStepTool ==> LastQuery(messages, visionId) == LastQuery(messages[..index], visionId)
        invariant !multiStepTool ==> last >= 0 && LastQuery(messages, visionId) == Ok(Some(last))
      {
        ghost var before := messages[..index + 1];
        assert before[|before| - 1] == messages[index] && before[..index] == messages[..index];
        if multiStepTool && messages[index].role == User {
          var content := RenderTrimmed(messages[index].content, Mode(false, false, visionId));
          if content.Err? { return Err(content.error); }
          if !IsWrapped(content.value) {
            multiStepTool, last := false, index;
          }
        }
      }
      assert messages[..0] == [];
      r := Ok(if multiStepTool then None else Some(last));
    }

    /** The tool list. */
    method AppendTools(tools: seq<string>)
      modifies `output
      ensures output == old(output) + ToolLines(tools)
    {
      for i := 0 to |tools|
        invariant output + ToolLines(tools[i..]) == old(output) + ToolLines(tools)
      {
        assert tools[i..][0] == tools[i] && tools[i..][1..] == tools[i + 1..];
        assert output + ([Text("\n"), Text(tools[i])] + ToolLines(tools[i + 1..]))
            == output + [Text("\n"), Text(tools[i])] + ToolLines(tools[i + 1..]);
        output := output + [Text("\n"), Text(tools[i])];
      }
      assert tools[|tools|..] == [];
      assert output + [] == output;
    }

    /** The arguments of one call. */
    method ArgumentLines(items: seq<(string, Value)>) returns (text: string)
      ensures text == RenderParameters(items)
    {
      text := "";
      for i := 0 to |items|
        invariant text + RenderParameters(items[i..]) == RenderParameters(items)
      {
        ParametersStep(items, i, text);
        text := text + "<parameter=" + items[i].0 + ">\n" + ValueText(items[i].1) + "\n</parameter>\n";
      }
      assert items[|items|..] == [];
    }

    method OneCall(call: ToolCall) returns (r: Result<string, Refusal>)
      ensures r == RenderCall(call)
    {
      if call.name == None { return Err(NoToolName); }
      var text := "";
      match call.arguments {
        case Mapping(items) => text := ArgumentLines(items);
        case JsonString(json) => if Trim(json) != "" { return Err(ArgumentsAsString); }
        case NotAnObject => return Err(ArgumentsNotObject);
        case NoArguments =>
      }
      r := Ok("<tool_call>\n<function=" + call.name.value + ">\n" + text + "</function>\n</tool_call>");
    }

    /** The calls of a message. */
    method CallLines(calls: seq<ToolCall>, content: string) returns (r: Result<string, Refusal>)
      ensures r == RenderCalls(calls, if content != "" then "\n\n" else "")
    {
      var text := "";
      var lead := if content != "" then "\n\n" else "";
      ghost var start := lead;
      assert calls[0..] == calls;
      NoCallsAdded(RenderCalls(calls, lead));
      for i := 0 to |calls|
        invariant lead == if i == 0 then start else "\n"
        invariant RenderCalls(calls, start) == WithCalls(text, RenderCalls(calls[i..], lead))
      {
        CallsStep(calls, i, lead, text);
        var call := OneCall(calls[i]);
        if call.Err? { return Err(call.error); }
        text := text + lead + call.value;
        lead := "\n";
      }
      assert calls[|calls|..] == [];
      assert text + "" == text;
      r := Ok(text);
    }

    /** One message of the message loop. */
    method AppendMessage(message: Message, prev: Option<Role>, next: Option<Role>, visionId: bool)
      returns (refusal: Option<Refusal>)
      modifies this
      ensures refusal == None ==>
                RenderMessage(message, prev, next, true, visionId, old(Count())).Ok?
                && var r := RenderMessage(message, prev, next, true, visionId, old(Count())).value;
                   output == old(output) + r.0 && Count() == r.1
      ensures refusal.Some? ==> RenderMessage(message, prev, next, true, visionId, old(Count())) == Err(refusal.value)
    {
      var content := RenderTrimmed(message.content, Mode(true, false, visionId));
      if content.Err? { return Some(content.error); }
      match message.role
      case User =>
        output := output + [ImStart, Text("user\n"), Text(content.value), ImEnd, Text("\n")];
        refusal := None;
      case Assistant =>
        refusal := AppendAssistant(message, content.value);
      case Tool =>
        AppendTool(content.value, prev, next);
        refusal := None;
      case OtherRole(_) => refusal := Some(BadRole);
      case _ => refusal := Some(SystemNotFirst);
    }

    method AppendAssistant(message: Message, content: string) returns (refusal: Option<Refusal>)
      modifies `output
      ensures refusal == None ==>
                AssistantTurn(message, content, true).Ok?
                    && output == old(output) + AssistantTurn(message, content, true).value
      ensures refusal.Some? ==> AssistantTurn(message, content, true) == Err(refusal.value)
    {
      var reasoning := "";
      if message.reasoning.Some? { reasoning := message.reasoning.value; }
      reasoning := Trim(reasoning);
      var calls := CallLines(message.calls, content);
      if calls.Err? { return Some(calls.error); }
      ghost var turn := ThinkOpen() + [Text(reasoning), Text("\n</think>\n\n")] + [Text(content), Text(calls.value),
          ImEnd, Text("\n")];
      output := output + [ImStart, Text("assistant\n"), Text("<think>\n"), Text(reasoning), Text("\n</think>\n\n"),
          Text(content)];
      output := output + [Text(calls.value)];
      output := output + [ImEnd, Text("\n")];
      assert output == old(output) + turn;
      assert Trim("") == "";
      refusal := None;
    }

    method AppendTool(content: string, prev: Option<Role>, next: Option<Role>)
      modifies `output
      ensures output == old(output) + (ToolOpening(prev) + ToolBlock(content) + ToolClosing(next))
    {
      if prev.Some? && prev.value != Tool {
        output := output + [ImStart, Text("user")];
      }
      output := output + [Text("\n"), ResponseOpen, Text("\n")];
      output := output + [Text(content)];
      output := output + [Text("\n"), ResponseClose];
      if next.Some? && next.value != Tool {
        output := output + [ImEnd, Text("\n")];
      } else if next == None {
        output := output + [ImEnd, Text("\n")];
      }
      assert output == old(output) + (ToolOpening(prev) + ToolBlock(content) + ToolClosing(next));
    }

    /** One round of the message loop. */
    method AppendNext(messages: seq<Message>, i: nat, visionId: bool) returns (refusal: Option<Refusal>)
      requires i < |messages|
      modifies this
      ensures WithPieces(old(output), Body(messages[i..], i, -1, RoleBefore(messages, i), None, visionId, old(Count())))
           == match refusal
              case None =>
                WithPieces(output, Body(messages[i + 1..], i + 1, -1, RoleBefore(messages, i + 1), None, visionId,
                                        Count()))
              case Some(e) => Err(e)
    {
      BodyStep(messages, i, output, visionId, Count());
      var next := if i + 1 < |messages| then Some(messages[i + 1].role) else None;
      assert next == RoleAt(messages[i + 1..], None);
      refusal := AppendMessage(messages[i], RoleBefore(messages, i), next, visionId);
    }

    /** The message loop: the first `numSys` messages are already in the system block. */
    method AppendMessages(messages: seq<Message>, numSys: nat, visionId: bool) returns (refusal: Option<Refusal>)
      requires numSys <= |messages| && Count() == Counters(0, 0)
      modifies this
      ensures var body := Body(messages[numSys..], numSys, -1, RoleBefore(messages, numSys), None, visionId,
          Counters(0, 0));
              if refusal == None then body.Ok? && output == old(output) + body.value.0 else body == Err(refusal.value)
    {
      ghost var start := output;
      for i := 0 to |messages|
        invariant i <= numSys ==> output == start && Count() == Counters(0, 0)
        invariant i >= numSys ==> (
            WithPieces(start, Body(messages[numSys..], numSys, -1, RoleBefore(messages, numSys), None, visionId,
                Counters(0, 0)))
            == WithPieces(output, Body(messages[i..], i, -1, RoleBefore(messages, i), None, visionId, Count())))
      {
        if i >= numSys {
          refusal := AppendNext(messages, i, visionId);
          if refusal.Some? { return; }
        }
      }
      assert messages[|messages|..] == [];
      assert output + [] == output;
      refusal := None;
    }

    /** The system block. */
    method AppendHeader(instructions: string, merged: string, o: Options, w: Wording)
      modifies `output
      ensures output == old(output) + Header(instructions, merged, o, w)
    {
      if o.tools != [] {
        AppendToolHeader(instructions, merged, o, w);
      } else if merged != "" {
        output := output + [ImStart, Text("system\n")];
        if instructions != "" { output := output + [Text(instructions), Text("\n\n" + merged)]; }
        else { output := output + [Text(merged)]; }
        output := output + [ImEnd, Text("\n")];
        assert output == old(output) + Header(instructions, merged, o, w);
      } else if instructions != "" {
        output := output + [ImStart, Text("system\n"), Text(instructions), ImEnd, Text("\n")];
      }
    }

    method AppendToolHeader(instructions: string, merged: string, o: Options, w: Wording)
      requires o.tools != []
      modifies `output
      ensures output == old(output) + Header(instructions, merged, o, w)
    {
      ghost var start := output;
      ghost var opening := [ImStart, Text("system\n")]
                           + (if instructions != "" then [Text(instructions + "\n\n")] else []);
      output := output + [ImStart, Text("system\n")];
      if instructions != "" { output := output + [Text(instructions + "\n\n")]; }
      output := output + [Text(w.toolsIntro)];
      assert output == start + (opening + [Text(w.toolsIntro)]);
      AppendTools(o.tools);
      ghost var closing := (if merged != "" then [Text("\n\n" + merged)] else []) + [ImEnd, Text("\n")];
      ghost var listed := output;
      output := output + [Text("\n</tools>"), Text(w.toolsFormat)];
      if merged != "" { output := output + [Text("\n\n" + merged)]; }
      output := output + [ImEnd, Text("\n")];
      assert output == listed + ([Text("\n</tools>"), Text(w.toolsFormat)] + closing);
      ToolHeaderParts(start, opening, w.toolsIntro, ToolLines(o.tools), [Text("\n</tools>"), Text(w.toolsFormat)],
                      if merged != "" then [Text("\n\n" + merged)] else []);
    }
  }

  lemma {:induction false} ToolHeaderParts(start: seq<Piece>, opening: seq<Piece>, intro: string, lines: seq<Piece>,
                                           format: seq<Piece>,
                                           merged: seq<Piece>)
    ensures start + (opening + [Text(intro)]) + lines + (format + (merged + [ImEnd, Text("\n")]))
         == start + (opening + [Text(intro)] + lines + format + merged + [ImEnd, Text("\n")])
  {
  }

  /** The checks between the system loop and the system block. */
  method ResolveInstructions(o: Options, w: Wording) returns (r: Result<string, Refusal>)
    ensures r == Instructions(Derived, o, w)
  {
    if o.preserveThinking != Undefined && o.preserveThinking != True { return Err(DiscardsThinking); }
    if o.enableThinking == False { return Err(DisablesThinking); }
    var effort := if o.effort.Some? then o.effort.value else "xhigh";
    if effort == "high" || effort == "max" { effort := "xhigh"; }
    if effort != "xhigh" { return Err(BadEffort); }
    r := Ok(w.xhigh);
  }

  /** The whole template. */
  method RenderTemplate(messages: seq<Message>, o: Options, w: Wording) returns (r: Result<seq<Piece>, Refusal>)
    ensures r == Render(Derived, messages, o, w)
  {
    if messages == [] { return Err(NoMessages); }
    var it := new Rendering();
    var merged := it.MergeSystem(messages);
    if merged.Err? { return Err(merged.error); }
    MergeCounts(messages, "");
    var instructions := ResolveInstructions(o, w);
    if instructions.Err? { return Err(instructions.error); }
    it.AppendHeader(instructions.value, merged.value.1, o, w);
    ghost var header := it.output;
    var last := it.FindLastQuery(messages, o.addVisionId);
    if last.Err? { return Err(last.error); }
    var refusal := it.AppendMessages(messages, merged.value.0, o.addVisionId);
    if refusal.Some? { return Err(refusal.value); }
    ghost var before := it.output;
    if o.addGenerationPrompt {
      it.output := it.output + [ImStart, Text("assistant\n")];
      it.output := it.output + [Text("<think>\n")];
    }
    assert it.output == before + GenerationPrompt(Derived, o);
    r := Ok(it.output);
    Whole(messages, o, w, header, before);
  }

  lemma {:induction false} Whole(messages: seq<Message>, o: Options, w: Wording, header: seq<Piece>, before: seq<Piece>)
    requires messages != [] && Merge(messages, "").Ok? && Instructions(Derived, o, w).Ok?
        && LastQuery(messages, o.addVisionId).Ok?
    requires header == Header(Instructions(Derived, o, w).value, Merge(messages, "").value.1, o, w)
    requires Merge(messages, "").value.0 <= |messages|
    requires var n := Merge(messages, "").value.0;
             var body := Body(messages[n..], n, -1, RoleBefore(messages, n), None, o.addVisionId, Counters(0, 0));
             body.Ok? && before == header + body.value.0
    ensures Render(Derived, messages, o, w) == Ok(before + GenerationPrompt(Derived, o))
  {
  }
}
