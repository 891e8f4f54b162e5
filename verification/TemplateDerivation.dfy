/** What the derivation (`scripts/derive-chat-template.py` lines 119-290) keeps of the model's own template,
    and what that template's conditional retention does. */
module TemplateDerivation {
  import opened Wrappers
  import opened ChatTemplate
  import opened TemplateProofs
  import TemplateTurns

  /** The request as the source template is to read it: the one effort the served profile has. */
  function AtXhigh(o: Options): Options {
    o.(effort := Some("xhigh"))
  }

  /** What the served profile demands of the request's own variables. */
  predicate FitsProfile(o: Options) {
    && o.preserveThinking in {Undefined, True}
    && o.enableThinking != False
    && o.effort in {None, Some("xhigh"), Some("high"), Some("max")}
  }

  /** The served template accepts exactly the requests of its profile whose conversation the source
      template, asked for xhigh, accepts. */
  lemma {:induction false} DerivedAcceptsExactly(messages: seq<Message>, o: Options, w: Wording)
    ensures Render(Derived, messages, o, w).Ok? <==> (FitsProfile(o) && Render(Source, messages, AtXhigh(o), w).Ok?)
  {
  }

  lemma {:induction false} FlatGrows(a: seq<Piece>, p: seq<Piece>, b: seq<Piece>)
    ensures |Flat(a + p + b)| == |Flat(a + b)| + |Flat(p)|
  {
    FlatConcat(a + p, b);
    FlatConcat(a, p);
    FlatConcat(a, b);
  }

  lemma {:induction false} FlatText(text: string, rest: seq<Piece>)
    ensures |Flat([Text(text)] + rest)| >= |text|
  {
    assert ([Text(text)] + rest)[1..] == rest;
  }

  /** Reasoning instructions lengthen the system block. */
  lemma {:induction false} InstructionsShow(instructions: string, merged: string, o: Options, w: Wording)
    requires instructions != ""
    ensures |Flat(Header(instructions, merged, o, w))| > |Flat(Header("", merged, o, w))|
  {
    if o.tools != [] {
      ToolsShow(instructions, merged, o, w);
    } else if merged != "" {
      var a, b := [ImStart, Text("system\n")], [ImEnd, Text("\n")];
      assert Header(instructions, merged, o, w) == a + [Text(instructions)] + ([Text("\n\n" + merged)] + b);
      assert Header("", merged, o, w) == a + ([Text(merged)] + b);
      FlatGrows(a, [Text(instructions)], [Text("\n\n" + merged)] + b);
      FlatText(instructions, []);
      assert [Text(instructions)] + [] == [Text(instructions)];
      LongerText(a, "\n\n" + merged, merged, b);
    } else {
      assert Header("", merged, o, w) == [];
      assert Flat(Header(instructions, merged, o, w))
          == PieceText(ImStart) + Flat(Header(instructions, merged, o, w)[1..]);
    }
  }

  lemma {:induction false} LongerText(a: seq<Piece>, x: string, y: string, b: seq<Piece>)
    requires |x| >= |y|
    ensures |Flat(a + ([Text(x)] + b))| >= |Flat(a + ([Text(y)] + b))|
  {
    FlatConcat(a, [Text(x)] + b);
    FlatConcat(a, [Text(y)] + b);
    assert ([Text(x)] + b)[1..] == b && ([Text(y)] + b)[1..] == b;
  }

  lemma {:induction false} ToolsShow(instructions: string, merged: string, o: Options, w: Wording)
    requires instructions != "" && o.tools != []
    ensures |Flat(Header(instructions, merged, o, w))| > |Flat(Header("", merged, o, w))|
  {
    var a := [ImStart, Text("system\n")];
    var b := Header("", merged, o, w)[2..];
    assert Header("", merged, o, w) == a + b;
    assert Header(instructions, merged, o, w) == a + [Text(instructions + "\n\n")] + b;
    FlatGrows(a, [Text(instructions + "\n\n")], b);
    FlatText(instructions + "\n\n", []);
    assert [Text(instructions + "\n\n")] + [] == [Text(instructions + "\n\n")];
  }

  /** MAIN: what the served template accepts it renders exactly as the source template does at xhigh -- if and
      only if `enable_thinking` is undefined or true; any other accepted value is told to think here only. */
  lemma {:induction false} DerivationPreservesExactly(messages: seq<Message>, o: Options, w: Wording)
    requires Render(Derived, messages, o, w).Ok? && w.xhigh != ""
    ensures Render(Source, messages, AtXhigh(o), w).Ok?
    ensures Flat(Render(Source, messages, AtXhigh(o), w).value) == Flat(Render(Derived, messages, o, w).value)
       <==> o.enableThinking in {Undefined, True}
    ensures o.enableThinking in {Undefined, True} ==>
              Render(Source, messages, AtXhigh(o), w) == Render(Derived, messages, o, w)
  {
    DerivedAcceptsExactly(messages, o, w);
    if o.enableThinking in {Undefined, True} {
      ThinkingRendersAlike(messages, o, w);
    } else {
      var n, merged, instructions, body := PartsOf(messages, o, w);
      OtherValueDrops(messages, o, w, n, merged, instructions, body);
      InstructionsShow(instructions, merged, o, w);
      HeadersDiffer(Header(instructions, merged, o, w), Header("", merged, o, w), body, GenerationPrompt(Derived, o));
    }
  }

  /** The exception happens: a request whose `enable_thinking` is neither undefined nor a boolean. */
  lemma {:induction false} OtherValueDiffers(w: Wording) returns (messages: seq<Message>, o: Options)
    requires w.xhigh != ""
    ensures Render(Derived, messages, o, w).Ok? && Render(Source, messages, AtXhigh(o), w).Ok?
    ensures Flat(Render(Source, messages, AtXhigh(o), w).value) != Flat(Render(Derived, messages, o, w).value)
  {
    messages := [Message(User, Absent, None, [])];
    o := Options([], OtherValue, Undefined, None, false, false);
    assert messages[1..] == [] && messages[0..] == messages;
    assert Body(messages, 0, -1, None, None, false, Counters(0, 0)).Ok?;
    DerivationPreservesExactly(messages, o, w);
  }

  lemma {:induction false} ThinkingRendersAlike(messages: seq<Message>, o: Options, w: Wording)
    requires Render(Derived, messages, o, w).Ok? && o.enableThinking in {Undefined, True}
    ensures Render(Source, messages, AtXhigh(o), w) == Render(Derived, messages, o, w)
  {
    MergeCounts(messages, "");
  }

  lemma {:induction false} HeadersDiffer(header: seq<Piece>, other: seq<Piece>, body: seq<Piece>, prompt: seq<Piece>)
    requires |Flat(header)| > |Flat(other)|
    ensures Flat(header + body + prompt) != Flat(other + body + prompt)
  {
    FlatConcat(header + body, prompt);
    FlatConcat(header, body);
    FlatConcat(other + body, prompt);
    FlatConcat(other, body);
  }

  lemma {:induction false} OtherValueDrops(messages: seq<Message>, o: Options, w: Wording,
                                           n: nat, merged: string, instructions: string, body: seq<Piece>)
    requires Parts(messages, o, w, n, merged, instructions, body) && o.enableThinking == OtherValue
    ensures Render(Source, messages, AtXhigh(o), w)
         == Ok(Header("", merged, o, w) + body + GenerationPrompt(Derived, o))
    ensures instructions == w.xhigh
  {
  }

  // ----- the source's conditional retention -----

  /** A user message that is not just a wrapped tool response. */
  ghost predicate IsQuery(message: Message, v: bool) {
    && message.role == User
    && RenderContent(message.content, Mode(false, false, v), Counters(0, 0)).Ok?
    && !IsWrapped(RenderContent(message.content, Mode(false, false, v), Counters(0, 0)).value.0)
  }

  /** The reverse loop finds the last query, if there is one. */
  lemma {:induction false} LastQueryIsLast(messages: seq<Message>, v: bool)
    requires LastQuery(messages, v).Ok?
    ensures
      match LastQuery(messages, v).value
      case Some(i) => i < |messages| && IsQuery(messages[i], v)
          && forall j | i < j < |messages| :: !IsQuery(messages[j], v)
      case None => forall j | 0 <= j < |messages| :: !IsQuery(messages[j], v)
    decreases |messages|
  {
    if messages != [] {
      var i := |messages| - 1;
      if LastQuery(messages, v) == LastQuery(messages[..i], v) && !IsQuery(messages[i], v) {
        LastQueryIsLast(messages[..i], v);
        assert forall j | 0 <= j < i :: messages[..i][j] == messages[j];
      }
    }
  }

  ghost predicate HasQuery(messages: seq<Message>, v: bool) {
    exists i :: 0 <= i < |messages| && IsQuery(messages[i], v)
  }

  /** MAIN: with `preserve_thinking` given and not true, the source keeps an assistant turn's reasoning exactly
      when a query comes before the turn and none behind it. */
  lemma {:induction false} SourceKeepsBehindLastQuery(a: seq<Message>, m: Message, b: seq<Message>, o: Options,
                                                      w: Wording)
    returns (before: seq<Piece>, c: Counters, behind: seq<Piece>)
    requires m.role == Assistant && Render(Source, a + [m] + b, o, w).Ok?
    requires o.preserveThinking in {False, OtherValue}
    ensures TurnOf(m, o.addVisionId, c, HasQuery(a, o.addVisionId) && !HasQuery(b, o.addVisionId)).Ok?
    ensures Render(Source, a + [m] + b, o, w).value
         == before + TurnOf(m, o.addVisionId, c, HasQuery(a, o.addVisionId)
             && !HasQuery(b, o.addVisionId)).value + behind
  {
    var messages, v := a + [m] + b, o.addVisionId;
    var n, q, header, body := SourceParts(messages, o, w);
    var cut := Cut(Source, o, messages, q);
    RetainedExactly(a, m, b, v, q);
    LeadBeforeTurn(a, m, b, n);
    var front, back;
    front, c, back := TurnInBody(a[n..], m, b, n, cut, RoleBefore(messages, n), v);
    var prompt := GenerationPrompt(Source, o);
    before, behind := header + front, back + prompt;
    TemplateTurns.TwiceSplit(header, front, TurnOf(m, v, c, |a| > cut).value, back, prompt);
  }

  /** An assistant message's turn, its content rendered from counters `c`. */
  function TurnOf(m: Message, v: bool, c: Counters, retained: bool): Result<seq<Piece>, Refusal> {
    var content :- RenderContent(m.content, Mode(true, false, v), c);
    AssistantTurn(m, content.0, retained)
  }

  /** What the source renders: header, message loop, generation prompt. */
  lemma {:induction false} SourceParts(messages: seq<Message>, o: Options, w: Wording)
    returns (n: nat, q: Option<nat>, header: seq<Piece>, body: seq<Piece>)
    requires Render(Source, messages, o, w).Ok?
    ensures Merge(messages, "").Ok? && n == Merge(messages, "").value.0 <= |messages|
    ensures LastQuery(messages, o.addVisionId) == Ok(q)
    ensures Body(messages[n..], n, Cut(Source, o, messages, q), RoleBefore(messages, n), None, o.addVisionId,
        Counters(0, 0)).Ok?
    ensures body == Body(messages[n..], n, Cut(Source, o, messages, q), RoleBefore(messages, n), None, o.addVisionId,
        Counters(0, 0)).value.0
    ensures Render(Source, messages, o, w).value == header + body + GenerationPrompt(Source, o)
  {
    MergeCounts(messages, "");
    n := Merge(messages, "").value.0;
    q := LastQuery(messages, o.addVisionId).value;
    header := Header(Instructions(Source, o, w).value, Merge(messages, "").value.1, o, w);
    body := Body(messages[n..], n, Cut(Source, o, messages, q), RoleBefore(messages, n), None, o.addVisionId,
        Counters(0, 0)).value.0;
  }

  lemma {:induction false} LeadBeforeTurn(a: seq<Message>, m: Message, b: seq<Message>, n: nat)
    requires m.role == Assistant && Merge(a + [m] + b, "").Ok? && n == Merge(a + [m] + b, "").value.0
    ensures n <= |a| && (a + [m] + b)[n..] == a[n..] + ([m] + b)
  {
    var messages := a + [m] + b;
    MergeCounts(messages, "");
    assert messages[|a|] == m;
    assert n <= |a|;
    assert messages == a + ([m] + b);
  }

  lemma {:induction false} RetainedExactly(a: seq<Message>, m: Message, b: seq<Message>, v: bool, q: Option<nat>)
    requires LastQuery(a + [m] + b, v) == Ok(q) && m.role == Assistant
    ensures (|a| > (if q.Some? then q.value else |a + [m] + b| - 1)) == (HasQuery(a, v) && !HasQuery(b, v))
  {
    var messages := a + [m] + b;
    LastQueryIsLast(messages, v);
    assert forall i | 0 <= i < |a| :: messages[i] == a[i];
    assert forall i | 0 <= i < |b| :: messages[|a| + 1 + i] == b[i];
    assert messages[|a|] == m && !IsQuery(m, v);
    if q.Some? {
      if q.value < |a| {
        assert IsQuery(a[q.value], v);
        forall i | 0 <= i < |b| ensures !IsQuery(b[i], v) {
          assert !IsQuery(messages[|a| + 1 + i], v);
        }
      } else {
        assert q.value > |a|;
        assert IsQuery(b[q.value - |a| - 1], v);
      }
    } else {
      forall i | 0 <= i < |a| ensures !IsQuery(a[i], v) {
        assert !IsQuery(messages[i], v);
      }
    }
  }

  /** An assistant message inside the message loop. */
  lemma {:induction false} TurnInBody(a: seq<Message>, m: Message, b: seq<Message>, n: nat, cut: int,
                                      prev: Option<Role>, v: bool)
    returns (front: seq<Piece>, c: Counters, back: seq<Piece>)
    requires m.role == Assistant && Body(a + ([m] + b), n, cut, prev, None, v, Counters(0, 0)).Ok?
    ensures TurnOf(m, v, c, n + |a| > cut).Ok?
    ensures Body(a + ([m] + b), n, cut, prev, None, v, Counters(0, 0)).value.0
         == front + (TurnOf(m, v, c, n + |a| > cut).value + back)
  {
    BodySplits(a, [m] + b, n, cut, prev, None, v, Counters(0, 0));
    var inside := Body(a, n, cut, prev, Some(Assistant), v, Counters(0, 0)).value;
    front, c := inside.0, inside.1;
    assert ([m] + b)[1..] == b && ([m] + b)[0] == m;
    var turn := RenderMessage(m, LastRole(a, prev), RoleAt(b, None), n + |a| > cut, v, c).value;
    back := Body(b, n + |a| + 1, cut, Some(Assistant), None, v, turn.1).value.0;
  }
}
