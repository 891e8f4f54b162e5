/** Prefix stability and turn structure of the served template. */
module TemplateTheorems {
  import opened Wrappers
  import opened ChatTemplate
  import opened TemplateProofs

  /** The prompt text of an accepted conversation. */
  function Prompt(messages: seq<Message>, o: Options, w: Wording): string
    requires Render(Derived, messages, o, w).Ok?
  {
    Flat(Render(Derived, messages, o, w).value)
  }

  function WithPrompt(o: Options, prompt: bool): Options {
    o.(addGenerationPrompt := prompt)
  }

  /** The system block up to the merged system text, when there are reasoning instructions. */
  function HeaderStem(instructions: string, o: Options, w: Wording): seq<Piece> {
    if o.tools != [] then
      [ImStart, Text("system\n"), Text(instructions + "\n\n"), Text(w.toolsIntro)] + ToolLines(o.tools)
      + [Text("\n</tools>"), Text(w.toolsFormat)]
    else [ImStart, Text("system\n"), Text(instructions)]
  }

  function MergedText(merged: string): string {
    if merged == "" then "" else "\n\n" + merged
  }

  lemma {:induction false} HeaderIsStem(instructions: string, merged: string, o: Options, w: Wording)
    requires instructions != ""
    ensures Header(instructions, merged, o, w)
         == HeaderStem(instructions, o, w) + (if merged != "" then [Text("\n\n" + merged)] else [])
            + [ImEnd, Text("\n")]
  {
  }

  lemma {:induction false} FlatOne(p: Piece)
    ensures Flat([p]) == PieceText(p)
  {
    assert [p][1..] == [];
    assert PieceText(p) + "" == PieceText(p);
  }

  lemma {:induction false} FlatTwo(p: Piece, q: Piece)
    ensures Flat([p, q]) == PieceText(p) + PieceText(q)
  {
    assert [p, q] == [p] + [q];
    FlatConcat([p], [q]);
    FlatOne(p);
    FlatOne(q);
  }

  lemma {:induction false} HeaderFlat(instructions: string, merged: string, o: Options, w: Wording)
    requires instructions != ""
    ensures Flat(Header(instructions, merged, o, w))
         == Flat(HeaderStem(instructions, o, w)) + MergedText(merged) + ("<|im_end|>" + "\n")
  {
    HeaderIsStem(instructions, merged, o, w);
    var stem := HeaderStem(instructions, o, w);
    var middle := if merged != "" then [Text("\n\n" + merged)] else [];
    FlatConcat(stem + middle, [ImEnd, Text("\n")]);
    FlatConcat(stem, middle);
    FlatTwo(ImEnd, Text("\n"));
    if merged != "" {
      FlatOne(Text("\n\n" + merged));
    }
  }

  lemma {:induction false} FlatPrefix(a: seq<Piece>, b: seq<Piece>)
    ensures Flat(a) <= Flat(a + b)
  {
    FlatConcat(a, b);
  }

  /** Two texts that part at one character are not prefixes of each other. */
  lemma {:induction false} PartingIsNoPrefix(common: string, a: string, b: string)
    requires a != "" && b != "" && a[0] != b[0]
    ensures !(common + a <= common + b)
  {
    assert (common + a)[|common|] == a[0] && (common + b)[|common|] == b[0];
  }

  /** The pieces a history and its continuation share, when the cut falls behind the system messages. */
  lemma {:induction false} HistorySplit(h: seq<Message>, t: seq<Message>, o: Options, w: Wording)
    returns (common: seq<Piece>, back: seq<Piece>)
    requires h != [] && t != [] && Render(Derived, h + t, o, w).Ok?
    requires Merge(h, "").Ok? && Merge(h, "").value.0 < |h|
    ensures Render(Derived, h + t, o, w) == Ok(common + back + GenerationPrompt(Derived, o))
    ensures Render(Derived, h, WithPrompt(o, false), w) == Ok(common + Closing(h, t))
    ensures Render(Derived, h, WithPrompt(o, true), w) == Ok(common + Closing(h, t) + ThinkOpen())
    ensures CutsToolRun(h, t) ==> back != [] && back[0] == Text("\n")
    ensures RoleAt(t, None) == Some(Assistant) ==> ThinkOpen() <= back
  {
    var n, merged, instructions, body := PartsOf(h + t, o, w);
    MergeSplits(h, t, "");
    var front, rest, c := HistoryInside(h, t, o, w, n, merged, instructions, body);
    common, back := Header(instructions, merged, o, w) + front, rest;
    HistoryRenders(h, o, w, n, merged, instructions, front, Closing(h, t));
    Assembled(Header(instructions, merged, o, w), front, back, GenerationPrompt(Derived, o));
    BackOpens(t, |h|, LastRole(h, None), o.addVisionId, c);
  }

  lemma {:induction false} Assembled(header: seq<Piece>, front: seq<Piece>, back: seq<Piece>, prompt: seq<Piece>)
    ensures header + (front + back) + prompt == header + front + back + prompt
  {
    assert header + (front + back) == header + front + back;
  }

  lemma {:induction false} HistoryRenders(h: seq<Message>, o: Options, w: Wording, n: nat, merged: string,
                                          instructions: string,
                                          front: seq<Piece>, closing: seq<Piece>)
    requires Parts(h, o, w, n, merged, instructions, front + closing)
    ensures
      var common := Header(instructions, merged, o, w) + front;
      && Render(Derived, h, WithPrompt(o, false), w) == Ok(common + closing)
      && Render(Derived, h, WithPrompt(o, true), w) == Ok(common + closing + ThinkOpen())
  {
    PartsIgnorePrompt(h, o, w, n, merged, instructions, front + closing, false);
    PartsIgnorePrompt(h, o, w, n, merged, instructions, front + closing, true);
    var header := Header(instructions, merged, o, w);
    assert header + (front + closing) == header + front + closing;
    assert header + front + closing + [] == header + front + closing;
  }

  /** How the continuation opens. */
  lemma {:induction false} BackOpens(t: seq<Message>, at: nat, prev: Option<Role>, v: bool, c: Counters)
    requires t != [] && Body(t, at, -1, prev, None, v, c).Ok?
    ensures
      var back := Body(t, at, -1, prev, None, v, c).value.0;
      && (t[0].role == Tool && prev == Some(Tool) ==> back != [] && back[0] == Text("\n"))
      && (t[0].role == Assistant ==> ThinkOpen() <= back)
  {
    if t[0].role == Tool && prev == Some(Tool) {
      ToolContinuation(t, at, v, c);
    } else if t[0].role == Assistant {
      AssistantContinuation(t, at, prev, v, c);
    }
  }

  /** The history's prompt, when the cut falls behind its system messages. */
  lemma {:induction false} HistoryPrompt(h: seq<Message>, t: seq<Message>, o: Options, w: Wording)
    requires h != [] && t != [] && Render(Derived, h + t, o, w).Ok?
    requires Merge(h, "").Ok? && Merge(h, "").value.0 < |h|
    ensures Render(Derived, h, WithPrompt(o, false), w).Ok?
    ensures Prompt(h, WithPrompt(o, false), w) <= Prompt(h + t, o, w) <==> !CutsToolRun(h, t)
  {
    var common, back := HistorySplit(h, t, o, w);
    assert common + back + GenerationPrompt(Derived, o) == common + (back + GenerationPrompt(Derived, o));
    ClosedIsPrefix(common, Closing(h, t), back + GenerationPrompt(Derived, o));
  }

  /** A turn closed early is no prefix of one that goes on. */
  lemma {:induction false} ClosedIsPrefix(common: seq<Piece>, closing: seq<Piece>, rest: seq<Piece>)
    requires closing == [] || (closing == [ImEnd, Text("\n")] && rest != [] && rest[0] == Text("\n"))
    ensures Flat(common + closing) <= Flat(common + rest) <==> closing == []
  {
    FlatConcat(common, closing);
    FlatConcat(common, rest);
    if closing != [] {
      FlatTwo(ImEnd, Text("\n"));
      PartingIsNoPrefix(Flat(common), Flat(closing), Flat(rest));
    } else {
      assert Flat(common) + Flat([]) == Flat(common);
    }
  }

  lemma {:induction false} HistoryThenAssistant(h: seq<Message>, t: seq<Message>, o: Options, w: Wording)
    requires h != [] && RoleAt(t, None) == Some(Assistant) && Render(Derived, h + t, o, w).Ok?
    requires Merge(h, "").Ok? && Merge(h, "").value.0 < |h|
    ensures Render(Derived, h, WithPrompt(o, true), w).Ok?
    ensures Prompt(h, WithPrompt(o, true), w) <= Prompt(h + t, o, w)
  {
    var common, back := HistorySplit(h, t, o, w);
    AssistantBehind(common, back, GenerationPrompt(Derived, o));
    assert common + [] == common;
  }

  lemma {:induction false} AssistantBehind(common: seq<Piece>, back: seq<Piece>, generation: seq<Piece>)
    requires ThinkOpen() <= back
    ensures Flat(common + ThinkOpen()) <= Flat(common + back + generation)
  {
    var rest := back[|ThinkOpen()|..] + generation;
    assert common + back + generation == common + ThinkOpen() + rest;
    FlatPrefix(common + ThinkOpen(), rest);
  }

  /** Whether a prompt is asked for changes only the end. */
  lemma {:induction false} PartsIgnorePrompt(messages: seq<Message>, o: Options, w: Wording,
                          n: nat, merged: string, instructions: string, body: seq<Piece>, prompt: bool)
    requires Parts(messages, o, w, n, merged, instructions, body)
    ensures Render(Derived, messages, WithPrompt(o, prompt), w)
         == Ok(Header(instructions, merged, o, w) + body + if prompt then ThinkOpen() else [])
  {
    PartsRender(messages, WithPrompt(o, prompt), w, n, merged, instructions, body);
  }

  /** A tool message behind a tool message starts on a new line, inside the open turn. */
  lemma {:induction false} ToolContinuation(t: seq<Message>, at: nat, v: bool, c: Counters)
    requires RoleAt(t, None) == Some(Tool) && Body(t, at, -1, Some(Tool), None, v, c).Ok?
    ensures
      var back := Body(t, at, -1, Some(Tool), None, v, c).value.0;
      back != [] && back[0] == Text("\n")
  {
    var first := RenderMessage(t[0], Some(Tool), RoleAt(t[1..], None), true, v, c).value;
    assert ToolOpening(Some(Tool)) == [];
    assert first.0[0] == Text("\n");
  }

  /** An assistant turn opens as the generation prompt does. */
  lemma {:induction false} AssistantContinuation(t: seq<Message>, at: nat, prev: Option<Role>, v: bool, c: Counters)
    requires RoleAt(t, None) == Some(Assistant) && Body(t, at, -1, prev, None, v, c).Ok?
    ensures ThinkOpen() <= Body(t, at, -1, prev, None, v, c).value.0
  {
    var first := RenderMessage(t[0], prev, RoleAt(t[1..], None), true, v, c).value;
    assert ThinkOpen() <= first.0;
  }

  /** The pieces of a history of system messages only, and of its continuation. */
  lemma {:induction false} SystemSplit(h: seq<Message>, t: seq<Message>, o: Options, w: Wording)
    returns (instructions: string, more: string, back: seq<Piece>)
    requires h != [] && t != [] && Render(Derived, h + t, o, w).Ok?
    requires Merge(h, "").Ok? && Merge(h, "").value.0 == |h|
    ensures Instructions(Derived, o, w) == Ok(instructions)
    ensures Merge(h + t, "").Ok? && Merge(h + t, "").value.1 == Extended(Merge(h, "").value.1, more)
    ensures Render(Derived, h + t, o, w)
         == Ok(Header(instructions, Merge(h + t, "").value.1, o, w) + back + GenerationPrompt(Derived, o))
    ensures Render(Derived, h, WithPrompt(o, false), w) == Ok(Header(instructions, Merge(h, "").value.1, o, w))
    ensures Render(Derived, h, WithPrompt(o, true), w)
        == Ok(Header(instructions, Merge(h, "").value.1, o, w) + ThinkOpen())
    ensures RoleAt(t, None) == Some(Assistant) ==>
              ThinkOpen() <= back && Merge(h + t, "").value.1 == Merge(h, "").value.1
  {
    var n, merged', body;
    n, merged', instructions, body := PartsOf(h + t, o, w);
    back := body;
    var merged := Merge(h, "").value.1;
    MergeSplits(h, t, "");
    more := MergeExtends(t, merged);
    SystemInside(h, o, w, merged, instructions);
    PartsIgnorePrompt(h, o, w, |h|, merged, instructions, [], false);
    PartsIgnorePrompt(h, o, w, |h|, merged, instructions, [], true);
    var header := Header(instructions, merged, o, w);
    assert header + [] == header && header + [] + [] == header;
    if RoleAt(t, None) == Some(Assistant) {
      assert (h + t)[|h|..] == t;
      AssistantContinuation(t, |h|, RoleBefore(h + t, |h|), o.addVisionId, Counters(0, 0));
    }
  }

  lemma {:induction false} MergedTextGrows(merged: string, more: string) returns (added: string)
    requires more != ""
    ensures added != "" && added[0] == '\n'
    ensures MergedText(Extended(merged, more)) == MergedText(merged) + added
  {
    added := if merged == "" then "\n\n" + more else "\n" + more;
  }

  /** A system block whose text goes on is not a prefix. */
  lemma {:induction false} LongerHeaderParts(instructions: string, merged: string, more: string, o: Options,
                                             w: Wording, rest: seq<Piece>)
    requires instructions != "" && more != ""
    ensures !(Flat(Header(instructions, merged, o, w))
              <= Flat(Header(instructions, Extended(merged, more), o, w) + rest))
  {
    var added := MergedTextGrows(merged, more);
    HeaderFlat(instructions, merged, o, w);
    HeaderFlat(instructions, Extended(merged, more), o, w);
    FlatConcat(Header(instructions, Extended(merged, more), o, w), rest);
    LongerTextParts(Flat(HeaderStem(instructions, o, w)), MergedText(merged), added, "<|im_end|>" + "\n", Flat(rest));
  }

  lemma {:induction false} LongerTextParts(stem: string, text: string, added: string, close: string, rest: string)
    requires added != "" && close != "" && added[0] != close[0]
    ensures !(stem + text + close <= stem + (text + added) + close + rest)
  {
    assert stem + (text + added) + close + rest == stem + text + (added + close + rest);
    PartingIsNoPrefix(stem + text, close, added + close + rest);
  }

  /** The history's prompt, when it is system messages only. */
  lemma {:induction false} SystemHistoryPrompt(h: seq<Message>, t: seq<Message>, o: Options, w: Wording)
    requires h != [] && t != [] && Render(Derived, h + t, o, w).Ok? && w.xhigh != ""
    requires Merge(h, "").Ok? && Merge(h, "").value.0 == |h|
    ensures Merge(h + t, "").Ok? && Render(Derived, h, WithPrompt(o, false), w).Ok?
    ensures Prompt(h, WithPrompt(o, false), w) <= Prompt(h + t, o, w)
       <==> Merge(h, "").value.1 == Merge(h + t, "").value.1
  {
    var instructions, more, back := SystemSplit(h, t, o, w);
    SystemPromptsCompare(instructions, Merge(h, "").value.1, more, o, w, back, GenerationPrompt(Derived, o),
                         Render(Derived, h, WithPrompt(o, false), w).value, Render(Derived, h + t, o, w).value);
  }

  lemma {:induction false} SystemPromptsCompare(instructions: string, merged: string, more: string, o: Options,
                                                w: Wording, back: seq<Piece>, generation: seq<Piece>,
                                                short: seq<Piece>, long: seq<Piece>)
    requires instructions != "" && short == Header(instructions, merged, o, w)
    requires long == Header(instructions, Extended(merged, more), o, w) + back + generation
    ensures Flat(short) <= Flat(long) <==> merged == Extended(merged, more)
  {
    assert long == Header(instructions, Extended(merged, more), o, w) + (back + generation);
    ShorterHeaderIsPrefix(instructions, merged, more, o, w, back + generation);
  }

  lemma {:induction false} ShorterHeaderIsPrefix(instructions: string, merged: string, more: string, o: Options,
                                                 w: Wording, rest: seq<Piece>)
    requires instructions != ""
    ensures Flat(Header(instructions, merged, o, w)) <= Flat(Header(instructions, Extended(merged, more), o, w) + rest)
       <==> merged == Extended(merged, more)
  {
    if more != "" {
      LongerHeaderParts(instructions, merged, more, o, w, rest);
      ExtendedIsLonger(merged, more);
    } else {
      FlatPrefix(Header(instructions, merged, o, w), rest);
    }
  }

  lemma {:induction false} ExtendedIsLonger(merged: string, more: string)
    requires more != ""
    ensures |Extended(merged, more)| > |merged|
  {
  }

  /** MAIN: without a generation prompt, a history's prompt is a prefix of every accepted continuation's,
      exactly unless the cut splits a run of tool messages, or more system text is merged behind the cut. */
  lemma {:induction false} HistoryIsPrefixExactly(h: seq<Message>, t: seq<Message>, o: Options, w: Wording)
    requires h != [] && t != [] && Render(Derived, h + t, o, w).Ok? && w.xhigh != ""
    ensures Merge(h, "").Ok? && Merge(h + t, "").Ok? && Render(Derived, h, WithPrompt(o, false), w).Ok?
    ensures Prompt(h, WithPrompt(o, false), w) <= Prompt(h + t, o, w)
       <==> (!CutsToolRun(h, t) && Merge(h, "").value.1 == Merge(h + t, "").value.1)
  {
    MergeSplits(h, t, "");
    MergeCounts(h, "");
    if Merge(h, "").value.0 < |h| {
      HistoryPrompt(h, t, o, w);
    } else {
      SystemHistoryPrompt(h, t, o, w);
      assert IsSystem(h[|h| - 1].role);
    }
  }

  /** Both exceptions happen, under every request the template accepts: a cut between two tool messages, ... */
  lemma {:induction false} ToolRunCut(o: Options, w: Wording) returns (h: seq<Message>, t: seq<Message>)
    requires Instructions(Derived, o, w).Ok? && w.xhigh != ""
    ensures Render(Derived, h + t, o, w).Ok? && Render(Derived, h, WithPrompt(o, false), w).Ok?
    ensures CutsToolRun(h, t) && Merge(h, "") == Merge(h + t, "")
    ensures !(Prompt(h, WithPrompt(o, false), w) <= Prompt(h + t, o, w))
  {
    var user, tool := Message(User, Absent, None, []), Message(Tool, Absent, None, []);
    h, t := [user, tool], [tool];
    assert h + t == [user, tool, tool];
    ToolRunAccepted(h + t, user, tool, o, w);
    HistoryIsPrefixExactly(h, t, o, w);
  }

  lemma {:induction false} ToolRunAccepted(messages: seq<Message>, user: Message, tool: Message, o: Options, w: Wording)
    requires Instructions(Derived, o, w).Ok? && messages == [user, tool, tool]
    requires user == Message(User, Absent, None, []) && tool == Message(Tool, Absent, None, [])
    ensures Render(Derived, messages, o, w).Ok?
  {
    assert messages == [user, tool] + [tool] && [user, tool] == [user] + [tool] && messages[0..] == messages;
    LastQueryPasses([user], tool, o.addVisionId);
    LastQueryPasses([user, tool], tool, o.addVisionId);
    TurnsAccepted(messages, user, tool, o.addVisionId);
  }

  lemma {:induction false} LastQueryPasses(messages: seq<Message>, tool: Message, v: bool)
    requires tool.role == Tool
    ensures LastQuery(messages + [tool], v) == LastQuery(messages, v)
  {
    assert (messages + [tool])[..|messages|] == messages;
  }

  lemma {:induction false} TurnsAccepted(messages: seq<Message>, user: Message, tool: Message, v: bool)
    requires user == Message(User, Absent, None, []) && tool == Message(Tool, Absent, None, [])
    requires messages == [user, tool, tool]
    ensures Body(messages, 0, -1, None, None, v, Counters(0, 0)).Ok?
  {
    var c := Counters(0, 0);
    assert messages[1..] == [tool, tool] && [tool, tool][1..] == [tool] && [tool][1..] == [];
    assert Body([tool], 2, -1, Some(Tool), None, v, c).Ok? && Body([tool], 2, -1, Some(Tool), None, v, c).value.1 == c;
    assert Body([tool, tool], 1, -1, Some(User), None, v, c).Ok?;
  }

  /** ... and a cut between two system messages, when the later one is not blank. */
  lemma {:induction false} SystemRunCut(text: string, o: Options, w: Wording) returns (h: seq<Message>, t: seq<Message>)
    requires Instructions(Derived, o, w).Ok? && w.xhigh != "" && Trim(text) != ""
    ensures Render(Derived, h + t, o, w).Ok? && Render(Derived, h, WithPrompt(o, false), w).Ok?
    ensures !CutsToolRun(h, t) && Merge(h, "").Ok? && Merge(h + t, "").Ok?
    ensures Merge(h, "").value.1 != Merge(h + t, "").value.1
    ensures !(Prompt(h, WithPrompt(o, false), w) <= Prompt(h + t, o, w))
  {
    var first, second := Message(System, Absent, None, []), Message(System, Str(text), None, []);
    h, t := [first], [second];
    assert h + t == [first, second];
    TwoMerged(first, second, text);
    SystemRunAccepted(h + t, first, second, text, o, w);
    HistoryIsPrefixExactly(h, t, o, w);
  }

  lemma {:induction false} TwoMerged(first: Message, second: Message, text: string)
    requires first == Message(System, Absent, None, []) && second == Message(System, Str(text), None, [])
    ensures Merge([first], "") == Ok((1, "")) && Merge([first, second], "") == Ok((2, Trim(text)))
  {
    assert [first, second][1..] == [second] && [second][1..] == [] && [first][1..] == [];
    assert ChatTemplate.Joined("", Trim(text)) == Trim(text) && ChatTemplate.Joined("", "") == "";
    assert Merge([second], "") == Ok((1, Trim(text)));
  }

  lemma {:induction false} SystemRunAccepted(messages: seq<Message>, first: Message, second: Message, text: string,
                                             o: Options, w: Wording)
    requires Instructions(Derived, o, w).Ok? && messages == [first, second]
    requires first == Message(System, Absent, None, []) && second == Message(System, Str(text), None, [])
    ensures Render(Derived, messages, o, w).Ok?
  {
    TwoMerged(first, second, text);
    assert messages[..1] == [first] && [first][..0] == [] && LastQuery([first], o.addVisionId) == Ok(None);
    assert LastQuery(messages, o.addVisionId) == Ok(None) && messages[2..] == [];
  }

  /** MAIN: with the generation prompt, a history's prompt is a prefix of every accepted conversation that
      goes on with an assistant message -- so what was generated from can always be found in the cache. */
  lemma {:induction false} GenerationPromptIsPrefix(h: seq<Message>, a: Message, t: seq<Message>, o: Options,
                                                    w: Wording)
    requires h != [] && a.role == Assistant && Render(Derived, h + ([a] + t), o, w).Ok?
    ensures Render(Derived, h, WithPrompt(o, true), w).Ok?
    ensures Prompt(h, WithPrompt(o, true), w) <= Prompt(h + ([a] + t), o, w)
  {
    MergeSplits(h, [a] + t, "");
    MergeCounts(h, "");
    if Merge(h, "").value.0 < |h| {
      HistoryThenAssistant(h, [a] + t, o, w);
    } else {
      SystemThenAssistant(h, [a] + t, o, w);
    }
  }

  lemma {:induction false} SystemThenAssistant(h: seq<Message>, t: seq<Message>, o: Options, w: Wording)
    requires h != [] && RoleAt(t, None) == Some(Assistant) && Render(Derived, h + t, o, w).Ok?
    requires Merge(h, "").Ok? && Merge(h, "").value.0 == |h|
    ensures Render(Derived, h, WithPrompt(o, true), w).Ok?
    ensures Prompt(h, WithPrompt(o, true), w) <= Prompt(h + t, o, w)
  {
    var instructions, more, back := SystemSplit(h, t, o, w);
    AssistantBehind(Header(instructions, Merge(h, "").value.1, o, w), back, GenerationPrompt(Derived, o));
  }
}
