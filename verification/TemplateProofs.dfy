/** How the served template's output grows with the conversation. */
module TemplateProofs {
  import opened Wrappers
  import opened ChatTemplate

  // ----- flattening -----

  lemma {:induction false} FlatConcat(a: seq<Piece>, b: seq<Piece>)
    ensures Flat(a + b) == Flat(a) + Flat(b)
  {
    if a == [] {
      assert a + b == b;
    } else {
      assert (a + b)[1..] == a[1..] + b;
      FlatConcat(a[1..], b);
    }
  }

  // ----- the message loop splits at any message -----

  function LastRole(messages: seq<Message>, prev: Option<Role>): Option<Role> {
    if messages == [] then prev else Some(messages[|messages| - 1].role)
  }

  lemma {:induction false} BodySplits(a: seq<Message>, b: seq<Message>, at: nat, cut: int, prev: Option<Role>,
                                      after: Option<Role>, visionId: bool, c: Counters)
    ensures
      var whole := Body(a + b, at, cut, prev, after, visionId, c);
      var front := Body(a, at, cut, prev, RoleAt(b, after), visionId, c);
      && (whole.Ok? ==> front.Ok?)
      && (front.Ok? ==>
            var back := Body(b, at + |a|, cut, LastRole(a, prev), after, visionId, front.value.1);
            && (whole.Ok? <==> back.Ok?)
            && (whole.Ok? ==> whole.value == (front.value.0 + back.value.0, back.value.1)))
    decreases |a|
  {
    if a == [] {
      assert a + b == b;
      if Body(b, at, cut, prev, after, visionId, c).Ok? {
        assert [] + Body(b, at, cut, prev, after, visionId, c).value.0
            == Body(b, at, cut, prev, after, visionId, c).value.0;
      }
    } else {
      assert (a + b)[1..] == a[1..] + b && (a + b)[0] == a[0];
      assert RoleAt(a[1..] + b, after) == RoleAt(a[1..], RoleAt(b, after));
      var first := RenderMessage(a[0], prev, RoleAt(a[1..], RoleAt(b, after)), at > cut, visionId, c);
      if first.Ok? {
        BodySplits(a[1..], b, at + 1, cut, Some(a[0].role), after, visionId, first.value.1);
        assert LastRole(a[1..], Some(a[0].role)) == LastRole(a, prev);
        PiecesAssociate(first.value.0, Body(a[1..], at + 1, cut, Some(a[0].role), RoleAt(b, after), visionId,
            first.value.1),
                        Body(a[1..] + b, at + 1, cut, Some(a[0].role), after, visionId, first.value.1));
      }
    }
  }

  lemma {:induction false} PiecesAssociate(first: seq<Piece>, front: Result<(seq<Piece>, Counters), Refusal>,
                                           whole: Result<(seq<Piece>, Counters), Refusal>)
    ensures front.Ok? ==> forall back: seq<Piece> :: first + (front.value.0 + back) == first + front.value.0 + back
  {
  }

  /** What follows matters to the last message only if that is a tool message. */
  lemma {:induction false} BodyIgnoresAfter(a: seq<Message>, at: nat, cut: int, prev: Option<Role>,
                                            after: Option<Role>, other: Option<Role>, visionId: bool, c: Counters)
    requires IsTool(after) == IsTool(other) || LastRole(a, None) != Some(Tool)
    ensures Body(a, at, cut, prev, after, visionId, c) == Body(a, at, cut, prev, other, visionId, c)
    decreases |a|
  {
    if |a| > 1 {
      var first := RenderMessage(a[0], prev, RoleAt(a[1..], after), at > cut, visionId, c);
      if first.Ok? {
        BodyIgnoresAfter(a[1..], at + 1, cut, Some(a[0].role), after, other, visionId, first.value.1);
      }
    }
  }

  // ----- merging the leading system messages -----

  lemma {:induction false} MergeSplits(a: seq<Message>, b: seq<Message>, text: string)
    requires Merge(a + b, text).Ok?
    ensures Merge(a, text).Ok?
    ensures Merge(a, text).value.0 < |a| ==> Merge(a + b, text) == Merge(a, text)
    ensures Merge(a, text).value.0 == |a| ==>
              && Merge(b, Merge(a, text).value.1).Ok?
              && Merge(a + b, text).value
                 == (|a| + Merge(b, Merge(a, text).value.1).value.0, Merge(b, Merge(a, text).value.1).value.1)
    decreases |a|
  {
    if a == [] {
      assert a + b == b;
    } else {
      assert (a + b)[1..] == a[1..] + b && (a + b)[0] == a[0];
      if IsSystem(a[0].role) {
        var content := RenderContent(a[0].content, Mode(false, true, false), Counters(0, 0)).value;
        MergeSplits(a[1..], b, Joined(text, content.0));
        MergeCounts(a[1..], Joined(text, content.0));
      }
    }
  }

  /** `text` with `more` behind it, on a new line if there was any. */
  function Extended(text: string, more: string): string {
    if more == "" then text else if text == "" then more else text + "\n" + more
  }

  /** Further system messages can only extend the merged text. */
  lemma {:induction false} MergeExtends(messages: seq<Message>, text: string) returns (more: string)
    requires Merge(messages, text).Ok?
    ensures Merge(messages, text).value.1 == Extended(text, more)
    decreases |messages|
  {
    more := "";
    if messages != [] && IsSystem(messages[0].role) {
      var content := RenderContent(messages[0].content, Mode(false, true, false), Counters(0, 0)).value.0;
      more := MergeExtends(messages[1..], Joined(text, content));
      ExtendedTwice(text, content, more);
      more := Extended(content, more);
    }
  }

  lemma {:induction false} ExtendedTwice(text: string, content: string, more: string)
    ensures Extended(Joined(text, content), more) == Extended(text, Extended(content, more))
  {
    if text != "" && content != "" && more != "" {
      assert text + "\n" + content + "\n" + more == text + "\n" + (content + "\n" + more);
    }
  }

  // ----- the last-query loop never refuses on its own -----

  /** Whether content renders does not depend on counting or numbering. */
  lemma {:induction false} ItemsOkAnyway(items: seq<Item>, m: Mode, m': Mode, c: Counters, c': Counters)
    requires m.system == m'.system
    ensures RenderItems(items, m, c).Ok? == RenderItems(items, m', c').Ok?
    decreases |items|
  {
    if items != [] && RenderItem(items[0], m, c).Ok? {
      ItemsOkAnyway(items[1..], m, m', RenderItem(items[0], m, c).value.1, RenderItem(items[0], m', c').value.1);
    }
  }

  lemma {:induction false} ContentOkAnyway(content: Content, m: Mode, m': Mode, c: Counters, c': Counters)
    requires m.system == m'.system
    ensures RenderContent(content, m, c).Ok? == RenderContent(content, m', c').Ok?
  {
    if content.Items? {
      ItemsOkAnyway(content.items, m, m', c, c');
    }
  }

  ghost predicate Renders(message: Message, visionId: bool) {
    RenderContent(message.content, Mode(false, false, visionId), Counters(0, 0)).Ok?
  }

  lemma {:induction false} BodyRendersAll(messages: seq<Message>, at: nat, cut: int, prev: Option<Role>,
                                          after: Option<Role>, visionId: bool, c: Counters)
    requires Body(messages, at, cut, prev, after, visionId, c).Ok?
    ensures forall i | 0 <= i < |messages| :: Renders(messages[i], visionId)
    decreases |messages|
  {
    if messages != [] {
      var first := RenderMessage(messages[0], prev, RoleAt(messages[1..], after), at > cut, visionId, c);
      ContentOkAnyway(messages[0].content, Mode(true, false, visionId), Mode(false, false, visionId), c,
                      Counters(0, 0));
      BodyRendersAll(messages[1..], at + 1, cut, Some(messages[0].role), after, visionId, first.value.1);
      forall i | 0 <= i < |messages| ensures Renders(messages[i], visionId) {
        if i > 0 {
          assert Renders(messages[1..][i - 1], visionId);
        }
      }
    }
  }

  lemma {:induction false} LastQueryOk(messages: seq<Message>, visionId: bool)
    requires forall i | 0 <= i < |messages| && messages[i].role == User :: Renders(messages[i], visionId)
    ensures LastQuery(messages, visionId).Ok?
    decreases |messages|
  {
    if messages != [] {
      assert messages[|messages| - 1].role == User ==> Renders(messages[|messages| - 1], visionId);
      LastQueryOk(messages[..|messages| - 1], visionId);
    }
  }

  // ----- what an accepted derived rendering consists of -----

  /** The parts of an accepted rendering by the served template. */
  ghost predicate Parts(messages: seq<Message>, o: Options, w: Wording, n: nat, merged: string,
                        instructions: string, body: seq<Piece>) {
    && messages != [] && Merge(messages, "") == Ok((n, merged)) && n <= |messages|
    && Instructions(Derived, o, w) == Ok(instructions)
    && LastQuery(messages, o.addVisionId).Ok?
    && Body(messages[n..], n, -1, RoleBefore(messages, n), None, o.addVisionId, Counters(0, 0)).Ok?
    && body == Body(messages[n..], n, -1, RoleBefore(messages, n), None, o.addVisionId, Counters(0, 0)).value.0
  }

  lemma {:induction false} PartsOf(messages: seq<Message>, o: Options, w: Wording)
    returns (n: nat, merged: string, instructions: string, body: seq<Piece>)
    requires Render(Derived, messages, o, w).Ok?
    ensures Parts(messages, o, w, n, merged, instructions, body)
    ensures Render(Derived, messages, o, w).value
        == Header(instructions, merged, o, w) + body + GenerationPrompt(Derived, o)
  {
    MergeCounts(messages, "");
    n, merged := Merge(messages, "").value.0, Merge(messages, "").value.1;
    instructions := Instructions(Derived, o, w).value;
    body := Body(messages[n..], n, -1, RoleBefore(messages, n), None, o.addVisionId, Counters(0, 0)).value.0;
  }

  lemma {:induction false} PartsRender(messages: seq<Message>, o: Options, w: Wording, n: nat, merged: string,
                                       instructions: string, body: seq<Piece>)
    requires Parts(messages, o, w, n, merged, instructions, body)
    ensures Render(Derived, messages, o, w)
        == Ok(Header(instructions, merged, o, w) + body + GenerationPrompt(Derived, o))
  {
    MergeCounts(messages, "");
  }

  // ----- acceptance and shape of a history inside a longer conversation -----

  /** A tool message closes its turn only if no tool message follows. */
  lemma {:induction false} ToolCutMissesClosing(a: seq<Message>, at: nat, prev: Option<Role>, visionId: bool,
                                                c: Counters)
    requires LastRole(a, None) == Some(Tool) && Body(a, at, -1, prev, Some(Tool), visionId, c).Ok?
    ensures Body(a, at, -1, prev, None, visionId, c).Ok?
    ensures Body(a, at, -1, prev, None, visionId, c).value.0
         == Body(a, at, -1, prev, Some(Tool), visionId, c).value.0 + [ImEnd, Text("\n")]
    decreases |a|
  {
    var first := RenderMessage(a[0], prev, RoleAt(a[1..], Some(Tool)), true, visionId, c);
    if |a| == 1 {
      assert ToolClosing(Some(Tool)) == [] && ToolClosing(None) == [ImEnd, Text("\n")];
    } else {
      ToolCutMissesClosing(a[1..], at + 1, Some(a[0].role), visionId, first.value.1);
      var rest := Body(a[1..], at + 1, -1, Some(a[0].role), Some(Tool), visionId, first.value.1).value.0;
      assert first.value.0 + (rest + [ImEnd, Text("\n")]) == first.value.0 + rest + [ImEnd, Text("\n")];
    }
  }

  predicate CutsToolRun(h: seq<Message>, t: seq<Message>) {
    LastRole(h, None) == Some(Tool) && RoleAt(t, None) == Some(Tool)
  }

  /** What the history alone has more than the history inside a longer conversation. */
  function Closing(h: seq<Message>, t: seq<Message>): seq<Piece> {
    if CutsToolRun(h, t) then [ImEnd, Text("\n")] else []
  }

  /** A history whose messages behind the system ones render has a last query. */
  lemma {:induction false} HistoryHasLastQuery(h: seq<Message>, n: nat, prev: Option<Role>, visionId: bool)
    requires Merge(h, "").Ok? && Merge(h, "").value.0 == n && n <= |h|
    requires Body(h[n..], n, -1, prev, None, visionId, Counters(0, 0)).Ok?
    ensures LastQuery(h, visionId).Ok?
  {
    BodyRendersAll(h[n..], n, -1, prev, None, visionId, Counters(0, 0));
    MergeCounts(h, "");
    forall i | 0 <= i < |h| && h[i].role == User ensures Renders(h[i], visionId) {
      assert h[n..][i - n] == h[i];
    }
    LastQueryOk(h, visionId);
  }

  /** How a history that is not all system messages sits inside a longer accepted conversation. */
  lemma {:induction false} HistoryInside(h: seq<Message>, t: seq<Message>, o: Options, w: Wording,
                      n: nat, merged: string, instructions: string, body: seq<Piece>)
    returns (front: seq<Piece>, back: seq<Piece>, c: Counters)
    requires h != [] && t != [] && Parts(h + t, o, w, n, merged, instructions, body)
    requires Merge(h, "") == Ok((n, merged)) && n < |h|
    ensures body == front + back
    ensures Parts(h, o, w, n, merged, instructions, front + Closing(h, t))
    ensures Body(t, |h|, -1, LastRole(h, None), None, o.addVisionId, c).Ok?
    ensures back == Body(t, |h|, -1, LastRole(h, None), None, o.addVisionId, c).value.0
  {
    LongerBody(h, t, o, w, n, merged, instructions, body);
    BehindSystem(h, t, n);
    front, back, c := BodyInside(h[n..], t, n, |h|, RoleBefore(h, n), LastRole(h, None), o.addVisionId);
    HistoryParts(h, o, w, n, merged, instructions, front + Closing(h, t));
  }

  lemma {:induction false} HistoryParts(h: seq<Message>, o: Options, w: Wording,
                                        n: nat, merged: string, instructions: string, body: seq<Piece>)
    requires h != [] && Merge(h, "") == Ok((n, merged)) && n < |h| && Instructions(Derived, o, w) == Ok(instructions)
    requires Body(h[n..], n, -1, RoleBefore(h, n), None, o.addVisionId, Counters(0, 0)).Ok?
    requires body == Body(h[n..], n, -1, RoleBefore(h, n), None, o.addVisionId, Counters(0, 0)).value.0
    ensures Parts(h, o, w, n, merged, instructions, body)
  {
    HistoryHasLastQuery(h, n, RoleBefore(h, n), o.addVisionId);
  }

  lemma {:induction false} LongerBody(h: seq<Message>, t: seq<Message>, o: Options, w: Wording,
                                      n: nat, merged: string, instructions: string, body: seq<Piece>)
    requires n < |h| && Parts(h + t, o, w, n, merged, instructions, body)
    ensures Instructions(Derived, o, w) == Ok(instructions)
    ensures Body(h[n..] + t, n, -1, RoleBefore(h, n), None, o.addVisionId, Counters(0, 0)).Ok?
    ensures body == Body(h[n..] + t, n, -1, RoleBefore(h, n), None, o.addVisionId, Counters(0, 0)).value.0
  {
    BehindSystem(h, t, n);
  }

  lemma {:induction false} BehindSystem(h: seq<Message>, t: seq<Message>, n: nat)
    requires n < |h|
    ensures (h + t)[n..] == h[n..] + t && RoleBefore(h + t, n) == RoleBefore(h, n)
    ensures LastRole(h[n..], RoleBefore(h, n)) == LastRole(h, None) == LastRole(h[n..], None)
    ensures Closing(h[n..], t) == Closing(h, t)
  {
  }

  lemma {:induction false} BodyInside(a: seq<Message>, t: seq<Message>, n: nat, m: nat, prev: Option<Role>,
                                      last: Option<Role>, v: bool)
    returns (front: seq<Piece>, back: seq<Piece>, c: Counters)
    requires m == n + |a| && last == LastRole(a, prev)
    requires a != [] && t != [] && Body(a + t, n, -1, prev, None, v, Counters(0, 0)).Ok?
    ensures Body(a + t, n, -1, prev, None, v, Counters(0, 0)).value.0 == front + back
    ensures Body(a, n, -1, prev, None, v, Counters(0, 0)).Ok?
    ensures Body(a, n, -1, prev, None, v, Counters(0, 0)).value.0
         == front + Closing(a, t)
    ensures Body(t, m, -1, last, None, v, c).Ok?
    ensures back == Body(t, m, -1, last, None, v, c).value.0
  {
    BodySplits(a, t, n, -1, prev, None, v, Counters(0, 0));
    var inside := Body(a, n, -1, prev, RoleAt(t, None), v, Counters(0, 0)).value;
    front, c := inside.0, inside.1;
    back := Body(t, m, -1, last, None, v, c).value.0;
    if CutsToolRun(a, t) {
      ToolCutMissesClosing(a, n, prev, v, Counters(0, 0));
    } else {
      BodyIgnoresAfter(a, n, -1, prev, RoleAt(t, None), None, v, Counters(0, 0));
      assert front + [] == front;
    }
  }

  /** A history of system messages only. */
  lemma {:induction false} SystemInside(h: seq<Message>, o: Options, w: Wording, merged: string, instructions: string)
    requires h != [] && Merge(h, "") == Ok((|h|, merged)) && Instructions(Derived, o, w) == Ok(instructions)
    ensures Parts(h, o, w, |h|, merged, instructions, [])
  {
    MergeCounts(h, "");
    forall i | 0 <= i < |h| ensures h[i].role != User {
      assert IsSystem(h[i].role);
    }
    LastQueryOk(h, o.addVisionId);
    assert h[|h|..] == [];
  }
}
