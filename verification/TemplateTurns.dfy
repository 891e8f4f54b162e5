/** The turn structure of rendered prompts: what the template itself opens and closes. */
module TemplateTurns {
  import opened Wrappers
  import opened ChatTemplate
  import opened TemplateProofs

  /** Walks the turn markers: None as soon as a turn is opened inside a turn or closed outside one, else
      whether a turn is open at the end. */
  function Walk(pieces: seq<Piece>, open: bool): Option<bool>
    decreases |pieces|
  {
    if pieces == [] then Some(open)
    else
      match pieces[0]
      case ImStart => if open then None else Walk(pieces[1..], true)
      case ImEnd => if open then Walk(pieces[1..], false) else None
      case _ => Walk(pieces[1..], open)
  }

  lemma {:induction false} WalkConcat(a: seq<Piece>, b: seq<Piece>, open: bool)
    ensures Walk(a + b, open) == if Walk(a, open) == None then None else Walk(b, Walk(a, open).value)
    decreases |a|
  {
    if a == [] {
      assert a + b == b;
    } else {
      assert (a + b)[1..] == a[1..] + b;
      match a[0]
      case ImStart => WalkConcat(a[1..], b, true);
      case ImEnd => WalkConcat(a[1..], b, false);
      case _ => WalkConcat(a[1..], b, open);
    }
  }

  /** Pieces without turn markers. */
  predicate Unmarked(pieces: seq<Piece>) {
    forall i | 0 <= i < |pieces| :: pieces[i] != ImStart && pieces[i] != ImEnd
  }

  lemma {:induction false} UnmarkedWalks(pieces: seq<Piece>, open: bool)
    requires Unmarked(pieces)
    ensures Walk(pieces, open) == Some(open)
    decreases |pieces|
  {
    if pieces != [] {
      UnmarkedWalks(pieces[1..], open);
    }
  }

  /** A turn: opened, filled, closed. */
  lemma {:induction false} TurnWalks(inner: seq<Piece>)
    requires Unmarked(inner)
    ensures Walk([ImStart] + inner + [ImEnd, Text("\n")], false) == Some(false)
  {
    var whole := [ImStart] + inner + [ImEnd, Text("\n")];
    assert whole[1..] == inner + [ImEnd, Text("\n")];
    UnmarkedWalks(inner, true);
    WalkConcat(inner, [ImEnd, Text("\n")], true);
    assert [ImEnd, Text("\n")][1..] == [Text("\n")] && [Text("\n")][1..] == [];
    assert Walk([Text("\n")], false) == Some(false);
  }

  lemma {:induction false} ToolLinesUnmarked(tools: seq<string>)
    ensures Unmarked(ToolLines(tools))
  {
    if tools != [] {
      ToolLinesUnmarked(tools[1..]);
    }
  }

  lemma {:induction false} HeaderWalks(instructions: string, merged: string, o: Options, w: Wording)
    ensures Walk(Header(instructions, merged, o, w), false) == Some(false)
  {
    if o.tools != [] {
      ToolHeaderWalks(instructions, merged, o, w);
    } else if merged != "" {
      TurnWalks([Text("system\n")]
                + (if instructions != "" then [Text(instructions), Text("\n\n" + merged)] else [Text(merged)]));
    } else if instructions != "" {
      TurnWalks([Text("system\n"), Text(instructions)]);
      assert Header(instructions, merged, o, w)
          == [ImStart] + [Text("system\n"), Text(instructions)] + [ImEnd, Text("\n")];
    }
    if o.tools == [] && merged != "" {
      assert Header(instructions, merged, o, w)
          == [ImStart]
             + ([Text("system\n")]
                + (if instructions != "" then [Text(instructions), Text("\n\n" + merged)] else [Text(merged)]))
             + [ImEnd, Text("\n")];
    }
  }

  lemma {:induction false} ToolHeaderWalks(instructions: string, merged: string, o: Options, w: Wording)
    requires o.tools != []
    ensures Walk(Header(instructions, merged, o, w), false) == Some(false)
  {
    var front := (if instructions != "" then [Text(instructions + "\n\n")] else []) + [Text(w.toolsIntro)];
    var behind := [Text("\n</tools>"), Text(w.toolsFormat)] + (if merged != "" then [Text("\n\n" + merged)] else []);
    var lines := ToolLines(o.tools);
    ToolLinesUnmarked(o.tools);
    UnmarkedConcat([Text("system\n")] + front, lines);
    UnmarkedConcat([Text("system\n")] + front + lines, behind);
    TurnWalks([Text("system\n")] + front + lines + behind);
    ToolHeaderIs(instructions, merged, o, w, front, lines, behind);
  }

  lemma {:induction false} ToolHeaderIs(instructions: string, merged: string, o: Options, w: Wording,
                                        front: seq<Piece>, lines: seq<Piece>, behind: seq<Piece>)
    requires o.tools != [] && lines == ToolLines(o.tools)
    requires front == (if instructions != "" then [Text(instructions + "\n\n")] else []) + [Text(w.toolsIntro)]
    requires behind == [Text("\n</tools>"), Text(w.toolsFormat)]
                       + (if merged != "" then [Text("\n\n" + merged)] else [])
    ensures Header(instructions, merged, o, w)
         == [ImStart] + ([Text("system\n")] + front + lines + behind) + [ImEnd, Text("\n")]
  {
  }

  lemma {:induction false} UnmarkedConcat(a: seq<Piece>, b: seq<Piece>)
    requires Unmarked(a) && Unmarked(b)
    ensures Unmarked(a + b)
  {
  }

  /** A message is rendered inside the open turn exactly when it is a tool message behind a tool message. */
  predicate InOpenTurn(prev: Option<Role>, role: Option<Role>) {
    IsTool(prev) && IsTool(role)
  }

  lemma {:induction false} MessageWalks(message: Message, prev: Option<Role>, next: Option<Role>, retained: bool,
                                        v: bool, c: Counters)
    requires RenderMessage(message, prev, next, retained, v, c).Ok?
    requires !(prev == None && message.role == Tool)
    ensures Walk(RenderMessage(message, prev, next, retained, v, c).value.0, InOpenTurn(prev, Some(message.role)))
         == Some(InOpenTurn(Some(message.role), next))
  {
    var pieces := RenderMessage(message, prev, next, retained, v, c).value.0;
    if message.role == Tool {
      var content := RenderContent(message.content, Mode(true, false, v), c).value.0;
      ToolWalks(prev, next, content);
    } else if message.role == User {
      var content := RenderContent(message.content, Mode(true, false, v), c).value.0;
      TurnWalks([Text("user\n"), Text(content)]);
      assert pieces == [ImStart] + [Text("user\n"), Text(content)] + [ImEnd, Text("\n")];
    } else {
      AssistantWalks(message, RenderContent(message.content, Mode(true, false, v), c).value.0, retained);
    }
  }

  lemma {:induction false} AssistantWalks(message: Message, content: string, retained: bool)
    requires AssistantTurn(message, content, retained).Ok?
    ensures Walk(AssistantTurn(message, content, retained).value, false) == Some(false)
  {
    var reasoning := if message.reasoning.Some? then Trim(message.reasoning.value) else "";
    var calls := RenderCalls(message.calls, if content != "" then "\n\n" else "").value;
    var inner := (if retained then [Text("assistant\n"), Text("<think>\n"), Text(reasoning), Text("\n</think>\n\n")]
                  else [Text("assistant\n")]) + [Text(content), Text(calls)];
    TurnWalks(inner);
    assert AssistantTurn(message, content, retained).value == [ImStart] + inner + [ImEnd, Text("\n")];
  }

  lemma {:induction false} ToolWalks(prev: Option<Role>, next: Option<Role>, content: string)
    requires prev != None
    ensures Walk(ToolOpening(prev) + ToolBlock(content) + ToolClosing(next), IsTool(prev)) == Some(IsTool(next))
  {
    WalkConcat(ToolOpening(prev) + ToolBlock(content), ToolClosing(next), IsTool(prev));
    WalkConcat(ToolOpening(prev), ToolBlock(content), IsTool(prev));
    OpeningWalks();
    UnmarkedWalks(ToolBlock(content), true);
    ClosingWalks();
  }

  lemma {:induction false} OpeningWalks()
    ensures Walk([ImStart, Text("user")], false) == Some(true)
  {
    assert [ImStart, Text("user")][1..] == [Text("user")] && [Text("user")][1..] == [];
    assert Walk([Text("user")], true) == Some(true);
  }

  lemma {:induction false} ClosingWalks()
    ensures Walk([ImEnd, Text("\n")], true) == Some(false) && Walk([ImEnd, Text("\n")], false) == None
  {
    assert [ImEnd, Text("\n")][1..] == [Text("\n")] && [Text("\n")][1..] == [];
    assert Walk([Text("\n")], false) == Some(false);
  }

  lemma {:induction false} BodyWalks(messages: seq<Message>, at: nat, cut: int, prev: Option<Role>,
                                     after: Option<Role>, v: bool, c: Counters)
    requires Body(messages, at, cut, prev, after, v, c).Ok?
    requires !(prev == None && RoleAt(messages, None) == Some(Tool))
    ensures Walk(Body(messages, at, cut, prev, after, v, c).value.0, InOpenTurn(prev, RoleAt(messages, after)))
         == Some(InOpenTurn(LastRole(messages, prev), after))
    decreases |messages|
  {
    if messages != [] {
      var role := messages[0].role;
      var next := RoleAt(messages[1..], after);
      var first := RenderMessage(messages[0], prev, next, at > cut, v, c).value;
      MessageWalks(messages[0], prev, next, at > cut, v, c);
      BodyWalks(messages[1..], at + 1, cut, Some(role), after, v, first.1);
      WalkConcat(first.0, Body(messages[1..], at + 1, cut, Some(role), after, v, first.1).value.0,
                 InOpenTurn(prev, Some(role)));
      assert LastRole(messages[1..], Some(role)) == LastRole(messages, prev);
    }
  }

  /** A list that starts with a tool message closes a turn it never opened. */
  lemma {:induction false} UnopenedBody(messages: seq<Message>, at: nat, cut: int, prev: Option<Role>, v: bool,
                                        c: Counters)
    requires RoleAt(messages, None) == Some(Tool) && prev in {None, Some(Tool)}
    requires Body(messages, at, cut, prev, None, v, c).Ok?
    ensures Walk(Body(messages, at, cut, prev, None, v, c).value.0, false) == None
    decreases |messages|
  {
    var next := RoleAt(messages[1..], None);
    var first := RenderMessage(messages[0], prev, next, at > cut, v, c).value;
    var content := RenderContent(messages[0].content, Mode(true, false, v), c).value.0;
    var rest := Body(messages[1..], at + 1, cut, Some(Tool), None, v, first.1).value.0;
    WalkConcat(first.0, rest, false);
    UnopenedBlock(prev, next, content);
    if IsTool(next) {
      UnopenedBody(messages[1..], at + 1, cut, Some(Tool), v, first.1);
    }
  }

  /** A tool message that opens no turn closes one all the same. */
  lemma {:induction false} UnopenedBlock(prev: Option<Role>, next: Option<Role>, content: string)
    requires prev in {None, Some(Tool)}
    ensures Walk(ToolOpening(prev) + ToolBlock(content) + ToolClosing(next), false)
         == if IsTool(next) then Some(false) else None
  {
    assert ToolOpening(prev) == [] && [] + ToolBlock(content) == ToolBlock(content);
    WalkConcat(ToolBlock(content), ToolClosing(next), false);
    UnmarkedWalks(ToolBlock(content), false);
    ClosingWalks();
  }

  lemma {:induction false} PromptWalks(profile: Profile, o: Options)
    ensures Walk(GenerationPrompt(profile, o), false) == Some(o.addGenerationPrompt)
  {
    if o.addGenerationPrompt {
      var prompt := GenerationPrompt(profile, o);
      assert prompt == [ImStart] + prompt[1..];
      assert prompt[1..] == [prompt[1], prompt[2]];
      UnmarkedWalks(prompt[1..], true);
    }
  }

  /** MAIN: turns strictly alternate, and only the generation prompt leaves one open -- in every accepted
      conversation except those that start with a tool message, which never do. */
  lemma {:induction false} TurnsAlternateExactly(profile: Profile, messages: seq<Message>, o: Options, w: Wording)
    requires Render(profile, messages, o, w).Ok?
    ensures Walk(Render(profile, messages, o, w).value, false)
         == if messages[0].role == Tool then None else Some(o.addGenerationPrompt)
  {
    MergeCounts(messages, "");
    var n := Merge(messages, "").value.0;
    var instructions := Instructions(profile, o, w).value;
    var cut := Cut(profile, o, messages, LastQuery(messages, o.addVisionId).value);
    var prev := RoleBefore(messages, n);
    var body := Body(messages[n..], n, cut, prev, None, o.addVisionId, Counters(0, 0)).value.0;
    var header, prompt := Header(instructions, Merge(messages, "").value.1, o, w), GenerationPrompt(profile, o);
    WalkConcat(header + body, prompt, false);
    WalkConcat(header, body, false);
    HeaderWalks(instructions, Merge(messages, "").value.1, o, w);
    PromptWalks(profile, o);
    if messages[0].role == Tool {
      assert n == 0 && messages[0..] == messages;
      UnopenedBody(messages, 0, cut, None, o.addVisionId, Counters(0, 0));
    } else {
      assert n > 0 ==> IsSystem(messages[n - 1].role);
      assert n == 0 ==> messages[n..] == messages;
      BodyWalks(messages[n..], n, cut, prev, None, o.addVisionId, Counters(0, 0));
    }
  }

  // ----- runs of tool messages -----

  /** The contents of a run of tool messages, rendered in order. */
  function Contents(run: seq<Message>, v: bool, c: Counters): Result<(seq<string>, Counters), Refusal>
    decreases |run|
  {
    if run == [] then Ok(([], c))
    else
      var first :- RenderContent(run[0].content, Mode(true, false, v), c);
      var rest :- Contents(run[1..], v, first.1);
      Ok(([first.0] + rest.0, rest.1))
  }

  function Blocks(contents: seq<string>): seq<Piece> {
    if contents == [] then [] else ToolBlock(contents[0]) + Blocks(contents[1..])
  }

  function Tally(pieces: seq<Piece>, p: Piece): nat {
    if pieces == [] then 0 else (if pieces[0] == p then 1 else 0) + Tally(pieces[1..], p)
  }

  lemma {:induction false} TallyConcat(a: seq<Piece>, b: seq<Piece>, p: Piece)
    ensures Tally(a + b, p) == Tally(a, p) + Tally(b, p)
  {
    if a == [] {
      assert a + b == b;
    } else {
      assert (a + b)[1..] == a[1..] + b;
      TallyConcat(a[1..], b, p);
    }
  }

  lemma {:induction false} BlockTally(content: string, p: Piece)
    requires p == ResponseOpen || p == ResponseClose
    ensures Tally(ToolBlock(content), p) == 1
  {
    var b := ToolBlock(content);
    TallyConcat([b[0]] + [b[1]] + [b[2]], [b[3]] + [b[4]] + [b[5]], p);
    assert b == [b[0]] + [b[1]] + [b[2]] + ([b[3]] + [b[4]] + [b[5]]);
    TallyConcat([b[0]] + [b[1]], [b[2]], p);
    TallyConcat([b[0]], [b[1]], p);
    TallyConcat([b[3]] + [b[4]], [b[5]], p);
    TallyConcat([b[3]], [b[4]], p);
    TallyOne(b[0], p); TallyOne(b[1], p); TallyOne(b[2], p); TallyOne(b[3], p); TallyOne(b[4], p); TallyOne(b[5], p);
  }

  lemma {:induction false} TallyOne(q: Piece, p: Piece)
    ensures Tally([q], p) == if q == p then 1 else 0
  {
    assert [q][1..] == [];
  }

  /** One block for each content, and no turn marker among them. */
  lemma {:induction false} BlocksHold(contents: seq<string>)
    ensures Unmarked(Blocks(contents))
    ensures Tally(Blocks(contents), ResponseOpen) == Tally(Blocks(contents), ResponseClose) == |contents|
    decreases |contents|
  {
    if contents != [] {
      BlocksHold(contents[1..]);
      TallyConcat(ToolBlock(contents[0]), Blocks(contents[1..]), ResponseOpen);
      TallyConcat(ToolBlock(contents[0]), Blocks(contents[1..]), ResponseClose);
      BlockTally(contents[0], ResponseOpen);
      BlockTally(contents[0], ResponseClose);
    }
  }

  predicate AllTools(run: seq<Message>) {
    forall i | 0 <= i < |run| :: run[i].role == Tool
  }

  lemma {:induction false} RunRenders(run: seq<Message>, at: nat, cut: int, prev: Option<Role>, after: Option<Role>,
                                      v: bool, c: Counters)
    requires run != [] && AllTools(run) && !IsTool(after)
    requires Body(run, at, cut, prev, after, v, c).Ok?
    ensures Contents(run, v, c).Ok? && |Contents(run, v, c).value.0| == |run|
    ensures Body(run, at, cut, prev, after, v, c).value.0
         == ToolOpening(prev) + Blocks(Contents(run, v, c).value.0) + [ImEnd, Text("\n")]
    decreases |run|
  {
    var next := RoleAt(run[1..], after);
    var first := RenderMessage(run[0], prev, next, at > cut, v, c).value;
    var content := RenderContent(run[0].content, Mode(true, false, v), c).value;
    if |run| == 1 {
      assert run[1..] == [];
      assert Contents(run[1..], v, content.1) == Ok(([], content.1));
      assert Contents(run, v, c) == Ok(([content.0] + [], content.1));
      OneBlock(content.0);
      assert first.0 + [] == first.0;
    } else {
      RunRenders(run[1..], at + 1, cut, Some(Tool), after, v, first.1);
      var rest := Contents(run[1..], v, content.1).value.0;
      BlocksStep(ToolOpening(prev), content.0, rest);
    }
  }

  lemma {:induction false} OneBlock(content: string)
    ensures Blocks([content]) == ToolBlock(content)
  {
    assert [content][1..] == [];
    assert ToolBlock(content) + [] == ToolBlock(content);
  }

  lemma {:induction false} BlocksStep(opening: seq<Piece>, content: string, rest: seq<string>)
    ensures opening + ToolBlock(content) + [] + ([] + Blocks(rest) + [ImEnd, Text("\n")])
         == opening + Blocks([content] + rest) + [ImEnd, Text("\n")]
  {
    assert ([content] + rest)[1..] == rest;
  }

  /** A user turn of tool responses. */
  function ResponseTurn(contents: seq<string>): seq<Piece> {
    [ImStart, Text("user")] + Blocks(contents) + [ImEnd, Text("\n")]
  }

  /** A run of tool messages between other messages, in the message loop. */
  lemma {:induction false} RunInBody(a: seq<Message>, run: seq<Message>, b: seq<Message>, n: nat,
                                     prev: Option<Role>, v: bool)
    returns (contents: seq<string>, c: Counters, back: seq<Piece>)
    requires Body(a + (run + b), n, -1, prev, None, v, Counters(0, 0)).Ok?
    requires run != [] && AllTools(run) && RoleAt(b, None) != Some(Tool)
    requires LastRole(a, prev) != None && LastRole(a, prev) != Some(Tool)
    ensures Body(a, n, -1, prev, Some(Tool), v, Counters(0, 0)).Ok?
    ensures Body(a + (run + b), n, -1, prev, None, v, Counters(0, 0)).value.0
         == Body(a, n, -1, prev, Some(Tool), v, Counters(0, 0)).value.0 + (ResponseTurn(contents) + back)
    ensures |contents| == |run| && Contents(run, v, c).Ok? && Contents(run, v, c).value.0 == contents
  {
    assert (run + b)[0] == run[0];
    BodySplits(a, run + b, n, -1, prev, None, v, Counters(0, 0));
    c := Body(a, n, -1, prev, Some(Tool), v, Counters(0, 0)).value.1;
    contents, back := RunThenRest(run, b, n + |a|, LastRole(a, prev), v, c);
  }

  lemma {:induction false} RunThenRest(run: seq<Message>, b: seq<Message>, at: nat, before: Option<Role>, v: bool,
                                       c: Counters)
    returns (contents: seq<string>, back: seq<Piece>)
    requires Body(run + b, at, -1, before, None, v, c).Ok?
    requires run != [] && AllTools(run) && RoleAt(b, None) != Some(Tool) && before != None && before != Some(Tool)
    ensures Body(run + b, at, -1, before, None, v, c).value.0 == ResponseTurn(contents) + back
    ensures |contents| == |run| && Contents(run, v, c).Ok? && Contents(run, v, c).value.0 == contents
  {
    BodySplits(run, b, at, -1, before, None, v, c);
    RunRenders(run, at, -1, before, RoleAt(b, None), v, c);
    contents := Contents(run, v, c).value.0;
    var turn := Body(run, at, -1, before, RoleAt(b, None), v, c).value;
    back := Body(b, at + |run|, -1, LastRole(run, before), None, v, turn.1).value.0;
  }

  /** MAIN: each maximal run of tool messages is one user turn, holding one response block for each message,
      in order, and nothing of its neighbours. */
  lemma {:induction false} ToolRunIsOneTurn(a: seq<Message>, run: seq<Message>, b: seq<Message>, o: Options, w: Wording)
    returns (before: seq<Piece>, contents: seq<string>, c: Counters, behind: seq<Piece>)
    requires Render(Derived, a + run + b, o, w).Ok?
    requires a != [] && a[|a| - 1].role != Tool && run != [] && AllTools(run) && RoleAt(b, None) != Some(Tool)
    ensures Render(Derived, a + run + b, o, w).value == before + ResponseTurn(contents) + behind
    ensures Contents(run, o.addVisionId, c).Ok? && contents == Contents(run, o.addVisionId, c).value.0
    ensures |contents| == |run| && Unmarked(Blocks(contents))
    ensures Tally(Blocks(contents), ResponseOpen) == Tally(Blocks(contents), ResponseClose) == |run|
    ensures a[0].role != Tool ==> Walk(before, false) == Some(false)
  {
    assert a + run + b == a + (run + b);
    var n, merged, instructions, body := PartsOf(a + (run + b), o, w);
    LeadFacts(a, run + b, n);
    var prev := RoleBefore(a, n);
    var back;
    contents, c, back := RunInBody(a[n..], run, b, n, prev, o.addVisionId);
    var front := Body(a[n..], n, -1, prev, Some(Tool), o.addVisionId, Counters(0, 0)).value.0;
    before := Header(instructions, merged, o, w) + front;
    behind := back + GenerationPrompt(Derived, o);
    BlocksHold(contents);
    TwiceSplit(Header(instructions, merged, o, w), front, ResponseTurn(contents), back, GenerationPrompt(Derived, o));
    if a[0].role != Tool {
      FrontIsClosed(a[n..], n, prev, o.addVisionId, instructions, merged, o, w);
    }
  }

  /** Where the leading system messages end, before a message that is not one. */
  lemma {:induction false} LeadFacts(a: seq<Message>, b: seq<Message>, n: nat)
    requires a != [] && b != [] && !IsSystem(b[0].role) && Merge(a + b, "").Ok? && Merge(a + b, "").value.0 == n
    ensures n <= |a| && (a + b)[n..] == a[n..] + b && RoleBefore(a + b, n) == RoleBefore(a, n)
    ensures RoleBefore(a, n) != Some(Tool) && (RoleBefore(a, n) == None ==> a[n..] == a)
    ensures LastRole(a[n..], RoleBefore(a, n)) == Some(a[|a| - 1].role)
  {
    LeadEndsBefore(a, b);
    MergeCounts(a + b, "");
    assert n > 0 ==> (a + b)[n - 1] == a[n - 1];
  }

  /** Before a tool run everything opened is closed. */
  lemma {:induction false} FrontIsClosed(a: seq<Message>, n: nat, prev: Option<Role>, v: bool,
                                         instructions: string, merged: string, o: Options, w: Wording)
    requires Body(a, n, -1, prev, Some(Tool), v, Counters(0, 0)).Ok?
    requires LastRole(a, prev) != None && LastRole(a, prev) != Some(Tool)
    requires prev != Some(Tool) && (prev == None ==> RoleAt(a, None) != Some(Tool))
    ensures Walk(Header(instructions, merged, o, w) + Body(a, n, -1, prev, Some(Tool), v, Counters(0, 0)).value.0,
        false) == Some(false)
  {
    WalkConcat(Header(instructions, merged, o, w), Body(a, n, -1, prev, Some(Tool), v, Counters(0, 0)).value.0, false);
    HeaderWalks(instructions, merged, o, w);
    BodyWalks(a, n, -1, prev, Some(Tool), v, Counters(0, 0));
  }

  /** The leading system messages end before any message that is not one. */
  lemma {:induction false} LeadEndsBefore(a: seq<Message>, b: seq<Message>)
    requires b != [] && !IsSystem(b[0].role) && Merge(a + b, "").Ok?
    ensures Merge(a + b, "").value.0 <= |a|
  {
    MergeCounts(a + b, "");
    assert (a + b)[|a|] == b[0];
  }

  lemma {:induction false} TwiceSplit(header: seq<Piece>, front: seq<Piece>, turn: seq<Piece>, back: seq<Piece>,
                                      prompt: seq<Piece>)
    ensures header + (front + (turn + back)) + prompt == header + front + turn + (back + prompt)
  {
  }
}
