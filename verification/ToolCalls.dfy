/** Tool calls in history (`chat_template.jinja` lines 121-153) can be read back: the framing around a value is
    transport, and undoing it once gives the value (`scripts/derive-chat-template.py` lines 265-275). */
module ToolCalls {
  import opened Wrappers
  import opened PyText
  import opened ChatTemplate

  /** A call as it is written: its name, and each argument's name and value text. */
  datatype PlainCall = PlainCall(name: string, arguments: seq<(string, string)>)

  function PlainItems(items: seq<(string, Value)>): seq<(string, string)> {
    if items == [] then [] else [(items[0].0, ValueText(items[0].1))] + PlainItems(items[1..])
  }

  function ItemsOf(arguments: Arguments): seq<(string, Value)> {
    if arguments.Mapping? then arguments.items else []
  }

  function Plain(calls: seq<ToolCall>): seq<PlainCall>
    requires forall i | 0 <= i < |calls| :: calls[i].name.Some?
  {
    if calls == [] then []
    else [PlainCall(calls[0].name.value, PlainItems(ItemsOf(calls[0].arguments)))] + Plain(calls[1..])
  }

  // ----- reading -----

  function Closer(): string { "</parameter>" }

  function Ending(): string { "</function>\n</tool_call>" }

  function Expect(text: string, prefix: string): Option<string> {
    if prefix <= text then Some(text[|prefix|..]) else None
  }

  /** What comes before the first `stop`, and what comes after it. */
  function ReadUntil(text: string, stop: string): (r: Option<(string, string)>)
    requires stop != ""
    ensures r.Some? ==> |r.value.1| < |text|
  {
    var i := Find(text, stop, 0);
    if i == -1 then None else Some((text[..i], text[i + |stop|..]))
  }

  /** Removes one newline from each end. */
  function Unframe(raw: string): Option<string> {
    if |raw| >= 2 && raw[0] == '\n' && raw[|raw| - 1] == '\n' then Some(raw[1..|raw| - 1]) else None
  }

  /** One argument, without its opening `<parameter=`. */
  function ReadArgument(text: string): (r: Option<((string, string), string)>)
    ensures r.Some? ==> |r.value.1| < |text|
  {
    match ReadUntil(text, ">")
    case None => None
    case Some((name, framed)) =>
      match ReadUntil(framed, Closer())
      case None => None
      case Some((raw, rest)) =>
        if Unframe(raw) == None || Expect(rest, "\n") == None then None
        else Some(((name, Unframe(raw).value), Expect(rest, "\n").value))
  }

  function ReadArguments(text: string): (r: Option<(seq<(string, string)>, string)>)
    ensures r.Some? ==> |r.value.1| < |text|
    decreases |text|
  {
    match Expect(text, "<parameter=")
    case None =>
      (match Expect(text, Ending())
       case None => None
       case Some(rest) => Some(([], rest)))
    case Some(open) =>
      match ReadArgument(open)
      case None => None
      case Some((argument, rest)) =>
        match ReadArguments(rest)
        case None => None
        case Some((arguments, behind)) => Some(([argument] + arguments, behind))
  }

  function ReadCall(text: string): (r: Option<(PlainCall, string)>)
    ensures r.Some? ==> |r.value.1| < |text|
  {
    match Expect(text, "<tool_call>\n<function=")
    case None => None
    case Some(open) =>
      match ReadUntil(open, ">")
      case None => None
      case Some((name, rest)) =>
        match Expect(rest, "\n")
        case None => None
        case Some(body) =>
          match ReadArguments(body)
          case None => None
          case Some((arguments, behind)) => Some((PlainCall(name, arguments), behind))
  }

  function ReadCalls(text: string): Option<seq<PlainCall>>
    decreases |text|
  {
    if text == "" then Some([])
    else
      match ReadCall(text)
      case None => None
      case Some((call, rest)) =>
        if rest == "" then Some([call])
        else
          match Expect(rest, "\n")
          case None => None
          case Some(more) =>
            match ReadCalls(more)
            case None => None
            case Some(calls) => Some([call] + calls)
  }

  // ----- one read -----

  ghost predicate Spells(text: string, needle: string) {
    exists i :: OccursAt(text, needle, i)
  }

  /** Text without `stop`, and `stop` not starting inside it: reading stops exactly behind it. */
  lemma {:induction false} ReadsUpTo(before: string, stop: string, after: string)
    requires stop != "" && forall i | 0 <= i < |before| :: !OccursAt(before + stop + after, stop, i)
    ensures ReadUntil(before + stop + after, stop) == Some((before, after))
  {
    var text := before + stop + after;
    assert text[|before|..|before| + |stop|] == stop;
    assert OccursAt(text, stop, |before|);
    FindIsFirst(text, stop, 0, |before|);
    assert text[..|before|] == before && text[|before| + |stop|..] == after;
  }

  lemma {:induction false} NameReads(name: string, after: string)
    requires !Spells(name, ">")
    ensures ReadUntil(name + ">" + after, ">") == Some((name, after))
  {
    var text := name + ">" + after;
    forall i | 0 <= i < |name| ensures !OccursAt(text, ">", i) {
      assert text[i..i + 1] == name[i..i + 1];
      assert !OccursAt(name, ">", i);
    }
    ReadsUpTo(name, ">", after);
  }

  /** Reading stops inside text that spells `stop`. */
  lemma {:induction false} ReadsShort(before: string, stop: string, rest: string)
    requires stop != "" && Spells(before, stop)
    ensures ReadUntil(before + rest, stop).Some? && |ReadUntil(before + rest, stop).value.0| + |stop| <= |before|
  {
    var i :| OccursAt(before, stop, i);
    var text := before + rest;
    assert text[i..i + |stop|] == before[i..i + |stop|];
    assert OccursAt(text, stop, i);
    FindIsFirst(text, stop, 0, i);
  }

  /** The framed value: nothing closes it before its own closer, whatever newlines or tags it holds. */
  lemma {:induction false} ValueReads(value: string, after: string)
    requires !Spells(value, Closer())
    ensures ReadUntil("\n" + value + "\n" + Closer() + after, Closer()) == Some(("\n" + value + "\n", after))
  {
    var before := "\n" + value + "\n";
    var text := before + Closer() + after;
    assert "\n" + value + "\n" + Closer() + after == text;
    forall i | 0 <= i < |before| ensures !OccursAt(text, Closer(), i) {
      NoCloserAt(value, after, i);
    }
    ReadsUpTo(before, Closer(), after);
  }

  lemma {:induction false} NoCloserAt(value: string, after: string, i: nat)
    requires !Spells(value, Closer()) && i < |value| + 2
    ensures !OccursAt("\n" + value + "\n" + Closer() + after, Closer(), i)
  {
    var text := "\n" + value + "\n" + Closer() + after;
    assert Closer()[0] == '<' && |Closer()| == 12;
    if i == 0 || i == |value| + 1 {
      assert text[i] == '\n';
    } else if i + 12 <= |value| + 1 {
      assert text[i..i + 12] == value[i - 1..i + 11];
      assert !OccursAt(value, Closer(), i - 1);
    } else {
      var k := |value| + 1 - i;
      assert text[i + k] == '\n' && 0 < k < 12;
      CloserHasNoNewline(k);
      assert i + 12 <= |text|;
      assert text[i..i + 12][k] == '\n';
    }
  }

  lemma {:induction false} CloserHasNoNewline(k: nat)
    requires k < 12
    ensures Closer()[k] != '\n'
  {
  }

  // ----- arguments -----

  ghost predicate CleanItem(item: (string, Value)) {
    !Spells(item.0, ">") && !Spells(ValueText(item.1), Closer())
  }

  ghost predicate Clean(call: ToolCall) {
    && (call.name.Some? ==> !Spells(call.name.value, ">"))
    && forall i | 0 <= i < |ItemsOf(call.arguments)| :: CleanItem(ItemsOf(call.arguments)[i])
  }

  /** A value with its framing and what follows. */
  function Framed(value: string, after: string): string {
    "\n" + value + "\n" + Closer() + ("\n" + after)
  }

  lemma {:induction false} FramedReads(value: string, after: string)
    ensures ReadUntil(Framed(value, after), Closer()).Some?
    ensures var r := ReadUntil(Framed(value, after), Closer()).value;
            if Spells(value, Closer()) then Unframe(r.0) != Some(value)
            else Unframe(r.0) == Some(value) && Expect(r.1, "\n") == Some(after)
  {
    if Spells(value, Closer()) {
      SpelledReadsShort(value, after);
    } else {
      ValueReads(value, "\n" + after);
      assert ("\n" + value + "\n")[1..|value| + 1] == value;
      assert ("\n" + after)[1..] == after;
    }
  }

  lemma {:induction false} SpelledReadsShort(value: string, after: string)
    requires Spells(value, Closer())
    ensures ReadUntil(Framed(value, after), Closer()).Some?
    ensures |ReadUntil(Framed(value, after), Closer()).value.0| < |value| + 2
  {
    var k :| OccursAt(value, Closer(), k);
    var start, rest := "\n" + value, "\n" + Closer() + ("\n" + after);
    assert start[1..] == value;
    assert start[1 + k..1 + k + |Closer()|] == start[1..][k..k + |Closer()|];
    assert OccursAt(start, Closer(), 1 + k);
    ReadsShort(start, Closer(), rest);
    assert start + rest == Framed(value, after);
  }

  /** One argument behind `<parameter=` is read back exactly if it is clean. */
  lemma {:induction false} ArgumentReads(name: string, value: string, after: string)
    ensures var r := ReadArgument(name + ">" + Framed(value, after));
            if !Spells(name, ">") && !Spells(value, Closer()) then r == Some(((name, value), after))
            else r.Some? ==> r.value.0 != (name, value)
  {
    NameThen(name, Framed(value, after));
    FramedReads(value, after);
  }

  /** A name is read up to its `>`, or short of its end. */
  lemma {:induction false} NameThen(name: string, after: string)
    ensures ReadUntil(name + ">" + after, ">").Some?
    ensures var r := ReadUntil(name + ">" + after, ">").value;
            if Spells(name, ">") then r.0 != name else r == (name, after)
  {
    if Spells(name, ">") {
      ReadsShort(name, ">", ">" + after);
      assert name + (">" + after) == name + ">" + after;
    } else {
      NameReads(name, after);
    }
  }

  ghost predicate AllCleanItems(items: seq<(string, Value)>) {
    forall i | 0 <= i < |items| :: CleanItem(items[i])
  }

  lemma {:induction false} ArgumentsRead(items: seq<(string, Value)>, after: string)
    ensures var r := ReadArguments(RenderParameters(items) + Ending() + after);
            if AllCleanItems(items) then r == Some((PlainItems(items), after))
            else r.Some? ==> r.value.0 != PlainItems(items)
    decreases |items|
  {
    var text := RenderParameters(items) + Ending() + after;
    if items == [] {
      assert text == Ending() + after;
      assert text[1] == '/';
      assert text[|Ending()|..] == after;
    } else {
      var name, value := items[0].0, ValueText(items[0].1);
      var rest := RenderParameters(items[1..]) + Ending() + after;
      ParameterText(items, after);
      ArgumentReads(name, value, rest);
      ArgumentsRead(items[1..], after);
      CleanSplits(items);
      HeadsDiffer(items, text, name + ">" + Framed(value, rest), rest);
    }
  }

  lemma {:induction false} ParameterText(items: seq<(string, Value)>, after: string)
    requires items != []
    ensures Expect(RenderParameters(items) + Ending() + after, "<parameter=")
         == Some(items[0].0 + ">" + Framed(ValueText(items[0].1), RenderParameters(items[1..]) + Ending() + after))
  {
    var name, value, others := items[0].0, ValueText(items[0].1), RenderParameters(items[1..]);
    ParameterPieces(name, value, others, Ending() + after);
    BehindOpener(RenderParameters(items), Ending(), after, name + ">" + Framed(value, others + (Ending() + after)));
    assert others + (Ending() + after) == others + Ending() + after;
  }

  lemma {:induction false} BehindOpener(parameters: string, ending: string, after: string, open: string)
    requires parameters + (ending + after) == "<parameter=" + open
    ensures Expect(parameters + ending + after, "<parameter=") == Some(open)
  {
    assert parameters + ending + after == "<parameter=" + open;
    assert ("<parameter=" + open)[11..] == open;
  }

  lemma {:induction false} ParameterPieces(name: string, value: string, others: string, behind: string)
    ensures "<parameter=" + name + ">\n" + value + "\n</parameter>\n" + others + behind
         == "<parameter=" + (name + ">" + Framed(value, others + behind))
  {
    assert ">\n" == ">" + "\n" && "\n</parameter>\n" == "\n" + Closer() + "\n";
    var a, b := "<parameter=" + name + ">", "\n" + value + "\n" + Closer();
    assert "<parameter=" + name + ">\n" + value + "\n</parameter>\n" == a + b + "\n";
    assert a + b + "\n" + others + behind == a + (b + ("\n" + (others + behind)));
  }

  lemma {:induction false} CleanSplits(items: seq<(string, Value)>)
    requires items != []
    ensures AllCleanItems(items) <==> CleanItem(items[0]) && AllCleanItems(items[1..])
  {
    assert items == [items[0]] + items[1..];
    forall i | 0 <= i < |items[1..]| ensures items[1..][i] == items[i + 1] {}
  }

  lemma {:induction false} HeadsDiffer(items: seq<(string, Value)>, text: string, open: string, rest: string)
    requires items != [] && Expect(text, "<parameter=") == Some(open)
    requires var r := ReadArgument(open);
             if CleanItem(items[0]) then r == Some(((items[0].0, ValueText(items[0].1)), rest))
             else r.Some? ==> r.value.0 != (items[0].0, ValueText(items[0].1))
    ensures ReadArguments(text).Some? && ReadArguments(text).value.0 == PlainItems(items) ==>
              CleanItem(items[0]) && ReadArguments(rest).Some? && ReadArguments(rest).value.0 == PlainItems(items[1..])
    ensures
      CleanItem(items[0]) && ReadArguments(rest).Some? && ReadArguments(rest).value.0 == PlainItems(items[1..]) ==>
        ReadArguments(text) == Some((PlainItems(items), ReadArguments(rest).value.1))
  {
    var first := (items[0].0, ValueText(items[0].1));
    var tail := PlainItems(items[1..]);
    assert PlainItems(items) == [first] + tail;
    assert PlainItems(items)[0] == first && PlainItems(items)[1..] == tail;
    if ReadArguments(text).Some? {
      var r := ReadArgument(open).value;
      var more := ReadArguments(r.1).value.0;
      assert ReadArguments(text).value.0 == [r.0] + more;
      assert ([r.0] + more)[0] == r.0 && ([r.0] + more)[1..] == more;
    }
  }

  // ----- calls -----

  lemma {:induction false} CallReads(call: ToolCall, after: string)
    requires RenderCall(call).Ok?
    ensures var r := ReadCall(RenderCall(call).value + after);
            var plain := PlainCall(call.name.value, PlainItems(ItemsOf(call.arguments)));
            if Clean(call) then r == Some((plain, after)) else r.Some? ==> r.value.0 != plain
  {
    var name, items := call.name.value, ItemsOf(call.arguments);
    var body := RenderParameters(items) + Ending() + after;
    CallText(call, after);
    ArgumentsRead(items, after);
    NameThen(name, "\n" + body);
    assert ("\n" + body)[1..] == body;
    assert Expect("\n" + body, "\n") == Some(body);
  }

  lemma {:induction false} CallText(call: ToolCall, after: string)
    requires RenderCall(call).Ok?
    ensures RenderCall(call).value + after
         == "<tool_call>\n<function=" + (call.name.value + ">" + ("\n" + (RenderParameters(ItemsOf(call.arguments))
             + Ending() + after)))
    ensures Expect(RenderCall(call).value + after, "<tool_call>\n<function=")
         == Some(call.name.value + ">" + ("\n" + (RenderParameters(ItemsOf(call.arguments)) + Ending() + after)))
  {
    var open := call.name.value + ">" + ("\n" + (RenderParameters(ItemsOf(call.arguments)) + Ending() + after));
    var arguments := RenderParameters(ItemsOf(call.arguments));
    assert ArgumentsText(call.arguments) == Ok(arguments);
    assert RenderCall(call).value == "<tool_call>\n<function=" + call.name.value + ">\n" + arguments
        + "</function>\n</tool_call>";
    assert RenderCall(call).value + after == "<tool_call>\n<function=" + open;
  }

  ghost predicate AllClean(calls: seq<ToolCall>) {
    forall i | 0 <= i < |calls| :: Clean(calls[i])
  }

  lemma {:induction false} RenderedNames(calls: seq<ToolCall>, lead: string)
    requires RenderCalls(calls, lead).Ok?
    ensures forall i | 0 <= i < |calls| :: calls[i].name.Some?
    decreases |calls|
  {
    if calls != [] {
      RenderedNames(calls[1..], "\n");
      forall i | 0 <= i < |calls| ensures calls[i].name.Some? {
        if i > 0 { assert calls[i] == calls[1..][i - 1]; }
      }
    }
  }

  lemma {:induction false} LeadComesFirst(calls: seq<ToolCall>, lead: string)
    requires calls != []
    ensures RenderCalls(calls, lead).Ok? == RenderCalls(calls, "").Ok?
    ensures RenderCalls(calls, lead).Ok? ==> RenderCalls(calls, lead).value == lead + RenderCalls(calls, "").value
  {
    if RenderCall(calls[0]).Ok? && RenderCalls(calls[1..], "\n").Ok? {
      LeadApart(lead, RenderCall(calls[0]).value, RenderCalls(calls[1..], "\n").value);
    }
  }

  lemma {:induction false} LeadApart(lead: string, first: string, rest: string)
    ensures lead + first + rest == lead + ("" + first + rest)
  {
  }

  /** The calls behind the first one. */
  lemma {:induction false} CallsStep(calls: seq<ToolCall>) returns (after: string)
    requires calls != [] && RenderCalls(calls, "").Ok?
    ensures RenderCall(calls[0]).Ok? && RenderCalls(calls[1..], "").Ok?
    ensures RenderCalls(calls, "").value == RenderCall(calls[0]).value + after
    ensures after == if |calls| == 1 then "" else "\n" + RenderCalls(calls[1..], "").value
  {
    var first := RenderCall(calls[0]).value;
    after := RenderCalls(calls[1..], "\n").value;
    NoLead(first, after);
    if |calls| > 1 {
      LeadComesFirst(calls[1..], "\n");
    }
  }

  lemma {:induction false} NoLead(first: string, after: string)
    ensures "" + first + after == first + after
  {
  }

  /** Reading one call and then the others. */
  lemma {:induction false} ReadStep(text: string, plain: PlainCall, after: string, more: string,
                                    behind: seq<PlainCall>, one: bool)
    requires text != "" && after == if one then "" else "\n" + more
    requires one ==> behind == []
    requires ReadCall(text) == Some((plain, after))
    ensures ReadCalls(text) == Some([plain] + behind) <==> (one || ReadCalls(more) == Some(behind))
  {
    if one {
      assert [plain] + behind == [plain];
    } else {
      assert after[1..] == more && after != "";
      assert Expect(after, "\n") == Some(more);
      if ReadCalls(more).Some? {
        var calls := ReadCalls(more).value;
        assert ReadCalls(text) == Some([plain] + calls);
        assert ([plain] + calls)[1..] == calls && ([plain] + behind)[1..] == behind;
      } else {
        assert ReadCalls(text) == None;
      }
    }
  }

  lemma {:induction false} FirstReadDiffers(text: string, plain: PlainCall, behind: seq<PlainCall>)
    requires text != "" && (ReadCall(text).Some? ==> ReadCall(text).value.0 != plain)
    ensures ReadCalls(text) != Some([plain] + behind)
  {
    if ReadCalls(text).Some? {
      assert ReadCalls(text).value[0] == ReadCall(text).value.0;
      assert ([plain] + behind)[0] == plain;
    }
  }

  /** MAIN: reading a rendered list of calls to the first closers, and taking one newline off each end of a
      value, gives back every name and value -- if and only if no name spells `>` and no value spells the
      closer. Newlines at a value's ends and other tags inside it do no harm. */
  lemma {:induction false} CallsReadBackExactly(calls: seq<ToolCall>)
    requires RenderCalls(calls, "").Ok?
    ensures forall i | 0 <= i < |calls| :: calls[i].name.Some?
    ensures ReadCalls(RenderCalls(calls, "").value) == Some(Plain(calls)) <==> AllClean(calls)
    decreases |calls|
  {
    RenderedNames(calls, "");
    if calls != [] {
      var after := CallsStep(calls);
      var text, rest := RenderCalls(calls, "").value, calls[1..];
      var plain := PlainCall(calls[0].name.value, PlainItems(ItemsOf(calls[0].arguments)));
      assert Plain(calls) == [plain] + Plain(rest);
      CallReads(calls[0], after);
      CallText(calls[0], after);
      CallsReadBackExactly(rest);
      AllCleanSplits(calls);
      if Clean(calls[0]) {
        ReadStep(text, plain, after, RenderCalls(rest, "").value, Plain(rest), |calls| == 1);
      } else {
        FirstReadDiffers(text, plain, Plain(rest));
      }
    }
  }

  lemma {:induction false} AllCleanSplits(calls: seq<ToolCall>)
    requires calls != []
    ensures AllClean(calls) <==> Clean(calls[0]) && AllClean(calls[1..])
  {
    assert calls == [calls[0]] + calls[1..];
    forall i | 0 <= i < |calls[1..]| ensures calls[1..][i] == calls[i + 1] {}
  }
}
