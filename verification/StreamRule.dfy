/** The rule a Responses stream is held to (`scripts/responses_stream_rule.py`): it is its own snapshot. */
module StreamRule {
  import opened Wrappers

  /** An output item: what its text is read from, and all its other keys. */
  datatype Item = Item(isCall: bool, arguments: Option<string>, content: seq<Option<string>>, other: string)

  function Joined(parts: seq<Option<string>>): string {
    if parts == [] then "" else (if parts[0].Some? then parts[0].value else "") + Joined(parts[1..])
  }

  /** `item_text` */
  function ItemText(item: Item): string {
    if item.isCall then (if item.arguments.Some? then item.arguments.value else "") else Joined(item.content)
  }

  /** What an event says under its output index. A finished part need not state a text. */
  datatype Body =
    | Delta(delta: string)
    | TextDone(text: string)
    | PartDone(part: Option<string>)
    | ItemDone(item: Item)

  /** An event; one of an unrelated type has no body here. */
  datatype Event = Event(number: int, index: int, body: Option<Body>)

  predicate Contiguous(events: seq<Event>) {
    forall k | 0 <= k < |events| :: events[k].number == events[0].number + k
  }

  function Stated(body: Body): Option<string>
    requires !body.Delta?
  {
    match body
    case TextDone(text) => Some(text)
    case PartDone(part) => part
    case ItemDone(item) => Some(ItemText(item))
  }

  // ----- one index -----

  /** What the deltas of one index have built; None if there were none, even empty ones. */
  function Built(bodies: seq<Body>): Option<string> {
    if bodies == [] then None
    else
      var before, last := Built(bodies[..|bodies| - 1]), bodies[|bodies| - 1];
      if last.Delta? then Some((if before.Some? then before.value else "") + last.delta) else before
  }

  /** The last item announced as done. */
  function Done(bodies: seq<Body>): Option<Item> {
    if bodies == [] then None
    else
      var last := bodies[|bodies| - 1];
      if last.ItemDone? then Some(last.item) else Done(bodies[..|bodies| - 1])
  }

  /** Every text stated on the way is the text built so far. */
  predicate StatesBuilt(bodies: seq<Body>) {
    forall k | 0 <= k < |bodies| && !bodies[k].Delta? :: Stated(bodies[k]) == Built(bodies[..k])
  }

  /** The stream of one index is its item of the snapshot. */
  predicate IndexConforms(bodies: seq<Body>, item: Option<Item>) {
    && StatesBuilt(bodies) && Done(bodies) == item
    && Built(bodies) == (if item.Some? then Some(ItemText(item.value)) else None)
  }

  // ----- all of them -----

  function Projection(events: seq<Event>, index: int): seq<Body> {
    if events == [] then []
    else
      var before, last := Projection(events[..|events| - 1], index), events[|events| - 1];
      if last.body.Some? && last.index == index then before + [last.body.value] else before
  }

  function ItemAt(output: seq<Item>, index: int): Option<Item> {
    if 0 <= index < |output| then Some(output[index]) else None
  }

  predicate States(event: Event) {
    event.body.Some? && !event.body.value.Delta?
  }

  /** Every text stated in the stream is what its index's deltas had built before. */
  predicate StatesSoFar(events: seq<Event>) {
    forall k | 0 <= k < |events| && States(events[k]) ::
      Stated(events[k].body.value) == Built(Projection(events[..k], events[k].index))
  }

  ghost predicate AllStated(events: seq<Event>) {
    forall index: int :: StatesBuilt(Projection(events, index))
  }

  ghost predicate TextsMatch(events: seq<Event>, output: seq<Item>) {
    forall index: int :: Built(Projection(events, index))
                      == (if 0 <= index < |output| then Some(ItemText(output[index])) else None)
  }

  ghost predicate ItemsMatch(events: seq<Event>, output: seq<Item>) {
    forall index: int :: Done(Projection(events, index)) == ItemAt(output, index)
  }

  /** The stream is its snapshot. */
  ghost predicate Conforms(events: seq<Event>, output: seq<Item>) {
    events != [] && Contiguous(events) && StatesSoFar(events) && TextsMatch(events, output)
        && ItemsMatch(events, output)
  }

  // ----- the check -----

  datatype Verdict = Accepted | NoEvents | NotContiguous | StatesOtherwise | TextsDiffer | ItemsDiffer

  function Lookup<T>(m: map<int, T>, index: int): Option<T> {
    if index in m then Some(m[index]) else None
  }

  ghost predicate Tracks(events: seq<Event>, built: map<int, string>, done: map<int, Item>) {
    forall index: int :: Lookup(built, index) == Built(Projection(events, index))
                      && Lookup(done, index) == Done(Projection(events, index))
  }

  lemma {:induction false} StatesBuiltStep(bodies: seq<Body>, body: Body)
    ensures StatesBuilt(bodies + [body]) <==> StatesBuilt(bodies) && (body.Delta? || Stated(body) == Built(bodies))
    ensures Built(bodies + [body])
         == (if body.Delta? then Some((if Built(bodies).Some? then Built(bodies).value else "") + body.delta)
             else Built(bodies))
    ensures Done(bodies + [body]) == (if body.ItemDone? then Some(body.item) else Done(bodies))
  {
    var more := bodies + [body];
    assert more[..|more| - 1] == bodies;
    forall k | 0 <= k < |bodies| ensures more[k] == bodies[k] && more[..k] == bodies[..k] {}
    if StatesBuilt(more) {
      forall k | 0 <= k < |bodies| && !bodies[k].Delta? ensures Stated(bodies[k]) == Built(bodies[..k]) {
        assert Stated(more[k]) == Built(more[..k]);
      }
      assert !body.Delta? ==> Stated(more[|bodies|]) == Built(more[..|bodies|]);
    }
  }

  lemma {:induction false} ProjectionStep(events: seq<Event>, k: nat, index: int)
    requires k < |events|
    ensures Projection(events[..k + 1], index)
         == (if events[k].body.Some? && events[k].index == index
             then Projection(events[..k], index) + [events[k].body.value] else Projection(events[..k], index))
  {
    assert events[..k + 1][..k] == events[..k];
  }

  /** Stating what was built is decided index by index. */
  lemma {:induction false} StatedByIndex(events: seq<Event>)
    ensures StatesSoFar(events) <==> AllStated(events)
    decreases |events|
  {
    if events == [] {
      assert forall index: int :: Projection(events, index) == [];
    } else {
      var n := |events| - 1;
      StatedByIndex(events[..n]);
      StatesSoFarStep(events, n);
      AllStatedStep(events, n);
    }
  }

  /** What the last event has to state, if anything. */
  predicate StatesRightly(events: seq<Event>, n: nat)
    requires n < |events|
  {
    States(events[n]) ==> Stated(events[n].body.value) == Built(Projection(events[..n], events[n].index))
  }

  lemma {:induction false} StatesSoFarStep(events: seq<Event>, n: nat)
    requires n == |events| - 1
    ensures StatesSoFar(events) <==> StatesSoFar(events[..n]) && StatesRightly(events, n)
  {
    forall k | 0 <= k < n ensures events[..n][k] == events[k] && events[..n][..k] == events[..k] {}
    if StatesSoFar(events) {
      forall k | 0 <= k < n && States(events[..n][k])
        ensures Stated(events[..n][k].body.value) == Built(Projection(events[..n][..k], events[..n][k].index))
      {
        assert States(events[k]);
      }
    }
    if StatesSoFar(events[..n]) && StatesRightly(events, n) {
      forall k | 0 <= k < |events| && States(events[k])
        ensures Stated(events[k].body.value) == Built(Projection(events[..k], events[k].index))
      {
        if k < n { assert States(events[..n][k]); }
      }
    }
  }

  lemma {:induction false} AllStatedStep(events: seq<Event>, n: nat)
    requires n == |events| - 1
    ensures AllStated(events) <==> AllStated(events[..n]) && StatesRightly(events, n)
  {
    assert events[..n + 1] == events;
    forall index: int
      ensures StatesBuilt(Projection(events, index))
         <==> StatesBuilt(Projection(events[..n], index)) && (index == events[n].index ==> StatesRightly(events, n))
    {
      ProjectionStep(events, n, index);
      if events[n].body.Some? && events[n].index == index {
        StatesBuiltStep(Projection(events[..n], index), events[n].body.value);
      }
    }
    if AllStated(events) {
      assert StatesBuilt(Projection(events, events[n].index));
    }
  }

  /** A text stated wrongly stays stated wrongly. */
  lemma {:induction false} WrongStays(events: seq<Event>, k: nat, index: int)
    requires k <= |events| && !StatesBuilt(Projection(events[..k], index))
    ensures !StatesBuilt(Projection(events, index))
    decreases |events| - k
  {
    if k == |events| {
      assert events[..k] == events;
    } else {
      ProjectionStep(events, k, index);
      if events[k].body.Some? && events[k].index == index {
        StatesBuiltStep(Projection(events[..k], index), events[k].body.value);
      }
      WrongStays(events, k + 1, index);
    }
  }

  /** One event. */
  lemma {:induction false} TracksStep(events: seq<Event>, k: nat, built: map<int, string>, done: map<int, Item>,
                                      built': map<int, string>, done': map<int, Item>)
    requires k < |events| && Tracks(events[..k], built, done) && AllStated(events[..k])
    requires var e := events[k];
             if e.body == None then built' == built && done' == done
             else if e.body.value.Delta? then
               built' == built[e.index := (if e.index in built then built[e.index] else "") + e.body.value.delta]
                   && done' == done
             else
               && Stated(e.body.value) == Lookup(built, e.index) && built' == built
               && done' == (if e.body.value.ItemDone? then done[e.index := e.body.value.item] else done)
    ensures Tracks(events[..k + 1], built', done') && AllStated(events[..k + 1])
  {
    forall index: int
      ensures Lookup(built', index) == Built(Projection(events[..k + 1], index))
           && Lookup(done', index) == Done(Projection(events[..k + 1], index))
      ensures StatesBuilt(Projection(events[..k + 1], index))
    {
      ProjectionStep(events, k, index);
      if events[k].body.Some? && events[k].index == index {
        StatesBuiltStep(Projection(events[..k], index), events[k].body.value);
      }
    }
  }

  /** The loop over the events: what it builds, or that a text was stated otherwise. */
  method Replay(events: seq<Event>) returns (ok: bool, built: map<int, string>, done: map<int, Item>)
    ensures ok <==> AllStated(events)
    ensures ok ==> Tracks(events, built, done)
  {
    built, done := map[], map[];
    for k := 0 to |events|
      invariant Tracks(events[..k], built, done) && AllStated(events[..k])
    {
      var e := events[k];
      ghost var before, doneBefore := built, done;
      if e.body.Some? {
        if e.body.value.Delta? {
          built := built[e.index := (if e.index in built then built[e.index] else "") + e.body.value.delta];
        } else {
          if Stated(e.body.value) != Lookup(built, e.index) {
            Misstated(events, k, built, done);
            ok := false;
            return;
          }
          if e.body.value.ItemDone? { done := done[e.index := e.body.value.item]; }
        }
      }
      TracksStep(events, k, before, doneBefore, built, done);
    }
    assert events[..|events|] == events;
    ok := true;
  }

  /** `assert_stream_is_its_snapshot`: each outcome says exactly what is, or is not, so. */
  method CheckStream(events: seq<Event>, output: seq<Item>) returns (r: Verdict)
    ensures r == Accepted <==> Conforms(events, output)
    ensures r == NoEvents <==> events == []
    ensures r == NotContiguous <==> events != [] && !Contiguous(events)
    ensures r == StatesOtherwise <==> events != [] && Contiguous(events) && !StatesSoFar(events)
    ensures r == TextsDiffer <==>
              events != [] && Contiguous(events) && StatesSoFar(events) && !TextsMatch(events, output)
  {
    if events == [] { return NoEvents; }
    if !Contiguous(events) { return NotContiguous; }
    StatedByIndex(events);
    var ok, built, done := Replay(events);
    if !ok { return StatesOtherwise; }
    var snapshot := map i | 0 <= i < |output| :: output[i];
    var texts := map i | 0 <= i < |output| :: ItemText(output[i]);
    TextsByIndex(events, output, texts, built, done);
    if texts != built { return TextsDiffer; }
    ItemsByIndex(events, output, snapshot, built, done);
    r := if done != snapshot then ItemsDiffer else Accepted;
  }

  lemma {:induction false} Misstated(events: seq<Event>, k: nat, built: map<int, string>, done: map<int, Item>)
    requires k < |events| && Tracks(events[..k], built, done) && events[k].body.Some? && !events[k].body.value.Delta?
    requires Stated(events[k].body.value) != Lookup(built, events[k].index)
    ensures !AllStated(events)
  {
    var index := events[k].index;
    ProjectionStep(events, k, index);
    StatesBuiltStep(Projection(events[..k], index), events[k].body.value);
    WrongStays(events, k + 1, index);
  }

  lemma {:induction false} TextsByIndex(events: seq<Event>, output: seq<Item>, texts: map<int, string>,
                                        built: map<int, string>, done: map<int, Item>)
    requires Tracks(events, built, done) && texts == map i | 0 <= i < |output| :: ItemText(output[i])
    ensures texts == built <==> TextsMatch(events, output)
  {
    if TextsMatch(events, output) {
      forall i: int ensures Lookup(texts, i) == Lookup(built, i) {
        assert Lookup(built, i) == Built(Projection(events, i));
      }
      SameLookups(texts, built);
    } else {
      var i: int :| Built(Projection(events, i)) != (if 0 <= i < |output| then Some(ItemText(output[i])) else None);
      assert Lookup(built, i) == Built(Projection(events, i));
      assert Lookup(texts, i) != Lookup(built, i);
    }
  }

  lemma {:induction false} ItemsByIndex(events: seq<Event>, output: seq<Item>, snapshot: map<int, Item>,
                                        built: map<int, string>, done: map<int, Item>)
    requires Tracks(events, built, done) && snapshot == map i | 0 <= i < |output| :: output[i]
    ensures done == snapshot <==> ItemsMatch(events, output)
  {
    if ItemsMatch(events, output) {
      forall i: int ensures Lookup(snapshot, i) == Lookup(done, i) {
        assert Lookup(done, i) == Done(Projection(events, i));
      }
      SameLookups(snapshot, done);
    } else {
      var i: int :| Done(Projection(events, i)) != ItemAt(output, i);
      assert Lookup(done, i) == Done(Projection(events, i));
      assert Lookup(snapshot, i) != Lookup(done, i);
    }
  }

  lemma {:induction false} SameLookups<T>(a: map<int, T>, b: map<int, T>)
    requires forall i: int :: Lookup(a, i) == Lookup(b, i)
    ensures a == b
  {
    forall i: int ensures (i in a <==> i in b) && (i in a ==> a[i] == b[i]) {
      assert Lookup(a, i) == Lookup(b, i);
    }
  }

  // ----- consequences -----

  /** MAIN: acceptance is decided index by index, so a stream accepted in one interleaving is accepted in every
      renumbered other one that keeps each index's own order. */
  lemma {:induction false} InterleavingIrrelevant(events: seq<Event>, others: seq<Event>, output: seq<Item>)
    requires events != [] && others != [] && Contiguous(events) && Contiguous(others)
    requires forall index: int :: Projection(events, index) == Projection(others, index)
    ensures Conforms(events, output) <==> Conforms(others, output)
    ensures Conforms(events, output)
        <==> forall index: int :: IndexConforms(Projection(events, index), ItemAt(output, index))
  {
    ByIndex(events, output);
    ByIndex(others, output);
  }

  lemma {:induction false} ByIndex(events: seq<Event>, output: seq<Item>)
    requires events != [] && Contiguous(events)
    ensures Conforms(events, output)
        <==> forall index: int :: IndexConforms(Projection(events, index), ItemAt(output, index))
  {
    StatedByIndex(events);
    if Conforms(events, output) {
      forall index: int ensures IndexConforms(Projection(events, index), ItemAt(output, index)) {
        assert StatesBuilt(Projection(events, index)) && Done(Projection(events, index)) == ItemAt(output, index);
      }
    }
    if forall index: int :: IndexConforms(Projection(events, index), ItemAt(output, index)) {
      forall index: int
        ensures StatesBuilt(Projection(events, index)) && Done(Projection(events, index)) == ItemAt(output, index)
        ensures Built(Projection(events, index)) == (if 0 <= index < |output| then Some(ItemText(output[index]))
            else None)
      {
        assert IndexConforms(Projection(events, index), ItemAt(output, index));
      }
    }
  }

  /** MAIN: behind the last announcement that its item is done, an index streams nothing but empty deltas. */
  lemma {:induction false} NothingBehindDone(bodies: seq<Body>, item: Option<Item>, k: nat, l: nat)
    requires IndexConforms(bodies, item) && k < l < |bodies| && bodies[k].ItemDone?
    requires forall j | k < j < |bodies| :: !bodies[j].ItemDone?
    requires bodies[l].Delta?
    ensures bodies[l].delta == ""
  {
    LastDone(bodies, k);
    assert Stated(bodies[k]) == Built(bodies[..k]);
    assert bodies[..k + 1][..k] == bodies[..k];
    assert Built(bodies[..k + 1]) == Built(bodies[..k]);
    BuiltGrows(bodies, k + 1, l);
    BuiltGrows(bodies, l + 1, |bodies|);
    assert bodies[..l + 1][..l] == bodies[..l] && bodies[..|bodies|] == bodies;
  }

  lemma {:induction false} LastDone(bodies: seq<Body>, k: nat)
    requires k < |bodies| && bodies[k].ItemDone? && forall j | k < j < |bodies| :: !bodies[j].ItemDone?
    ensures Done(bodies) == Some(bodies[k].item)
    decreases |bodies|
  {
    if k < |bodies| - 1 {
      LastDone(bodies[..|bodies| - 1], k);
    }
  }

  function LengthOf(text: Option<string>): nat {
    if text.Some? then |text.value| else 0
  }

  lemma {:induction false} BuiltGrows(bodies: seq<Body>, a: nat, b: nat)
    requires a <= b <= |bodies|
    ensures LengthOf(Built(bodies[..a])) <= LengthOf(Built(bodies[..b]))
    decreases b
  {
    if a < b {
      BuiltGrows(bodies, a, b - 1);
      assert bodies[..b][..b - 1] == bodies[..b - 1];
    }
  }

  predicate NoDelta(bodies: seq<Body>) {
    forall k | 0 <= k < |bodies| :: !bodies[k].Delta?
  }

  lemma {:induction false} NothingBuilt(bodies: seq<Body>)
    ensures Built(bodies) == None <==> NoDelta(bodies)
  {
    if bodies != [] {
      var n := |bodies| - 1;
      NothingBuilt(bodies[..n]);
      assert bodies == bodies[..n] + [bodies[n]];
    }
  }

  /** MAIN: a finished part that states no text passes exactly where its index has streamed no delta yet. */
  lemma {:induction false} TextlessPartExactly(bodies: seq<Body>)
    ensures StatesBuilt(bodies + [PartDone(None)]) <==> StatesBuilt(bodies) && NoDelta(bodies)
  {
    StatesBuiltStep(bodies, PartDone(None));
    NothingBuilt(bodies);
  }

  predicate OnlyTextlessParts(bodies: seq<Body>) {
    forall k | 0 <= k < |bodies| :: bodies[k] == PartDone(None)
  }

  /** MAIN: an index outside the snapshot passes exactly if it has nothing but finished parts that state no text. */
  lemma {:induction false} OutsideSnapshotExactly(bodies: seq<Body>)
    ensures IndexConforms(bodies, None) <==> OnlyTextlessParts(bodies)
    decreases |bodies|
  {
    if bodies != [] {
      var n := |bodies| - 1;
      OutsideSnapshotExactly(bodies[..n]);
      assert bodies == bodies[..n] + [bodies[n]];
      StatesBuiltStep(bodies[..n], bodies[n]);
      OnlyTextlessStep(bodies, n);
    }
  }

  lemma {:induction false} OnlyTextlessStep(bodies: seq<Body>, n: nat)
    requires n == |bodies| - 1
    ensures OnlyTextlessParts(bodies) <==> OnlyTextlessParts(bodies[..n]) && bodies[n] == PartDone(None)
  {
    assert forall k | 0 <= k < n :: bodies[..n][k] == bodies[k];
    if OnlyTextlessParts(bodies) {
      assert bodies[n] == PartDone(None);
    }
  }

  /** Such a stream exists: one event, at an index its empty snapshot does not have. */
  lemma {:induction false} PartOutsideSnapshot() returns (events: seq<Event>)
    ensures |events| == 1 && events[0].body == Some(PartDone(None)) && Conforms(events, [])
  {
    events := [Event(0, 0, Some(PartDone(None)))];
    forall index: int ensures IndexConforms(Projection(events, index), ItemAt([], index)) {
      assert Projection(events[..0], index) == [];
      OutsideSnapshotExactly(Projection(events, index));
    }
    ByIndex(events, []);
  }

  predicate IsDeltaOf(event: Event, index: int) {
    event.index == index && event.body.Some? && event.body.value.Delta?
  }

  /** MAIN: every item of an accepted snapshot streamed at least one delta, so an item that streamed none -- even one
      whose text is empty -- is refused, and no other index streamed any. */
  lemma {:induction false} ExactlyTheItemsStream(events: seq<Event>, output: seq<Item>, index: int)
    requires Conforms(events, output)
    ensures 0 <= index < |output| <==> exists k :: 0 <= k < |events| && IsDeltaOf(events[k], index)
  {
    assert Built(Projection(events, index)) == (if 0 <= index < |output| then Some(ItemText(output[index])) else None);
    BuiltNeedsDelta(events, index);
  }

  /** So an item with an empty text needs an empty delta: announced without one it is refused, with one accepted. */
  lemma {:induction false} EmptyItemNeedsDelta(item: Item) returns (without: seq<Event>, with: seq<Event>)
    requires ItemText(item) == ""
    ensures without == [Event(0, 0, Some(ItemDone(item)))] && !Conforms(without, [item])
    ensures with == [Event(0, 0, Some(Delta(""))), Event(1, 0, Some(ItemDone(item)))] && Conforms(with, [item])
  {
    without := [Event(0, 0, Some(ItemDone(item)))];
    with := [Event(0, 0, Some(Delta(""))), Event(1, 0, Some(ItemDone(item)))];
    if Conforms(without, [item]) {
      ExactlyTheItemsStream(without, [item], 0);
    }
    forall index: int ensures IndexConforms(Projection(with, index), ItemAt([item], index)) {
      EmptyThenDone(with, item, index);
    }
    ByIndex(with, [item]);
  }

  lemma {:induction false} EmptyThenDone(events: seq<Event>, item: Item, index: int)
    requires ItemText(item) == ""
    requires events == [Event(0, 0, Some(Delta(""))), Event(1, 0, Some(ItemDone(item)))]
    ensures IndexConforms(Projection(events, index), ItemAt([item], index))
  {
    BothProjected(events, item, index);
    if index == 0 {
      EmptyItemConforms(item);
    } else {
      OutsideSnapshotExactly([]);
    }
  }

  lemma {:induction false} BothProjected(events: seq<Event>, item: Item, index: int)
    requires events == [Event(0, 0, Some(Delta(""))), Event(1, 0, Some(ItemDone(item)))]
    ensures Projection(events, index) == if index == 0 then [Delta(""), ItemDone(item)] else []
  {
    assert events[..2] == events && events[..0] == [] && Projection([], index) == [];
    ProjectionStep(events, 0, index);
    ProjectionStep(events, 1, index);
  }

  lemma {:induction false} DeltaFirst(bodies: seq<Body>, delta: string)
    requires bodies == [Delta(delta)]
    ensures StatesBuilt(bodies) && Built(bodies) == Some(delta) && Done(bodies) == None
  {
    assert bodies[..|bodies| - 1] == [] && "" + delta == delta;
  }

  lemma {:induction false} EmptyItemConforms(item: Item)
    requires ItemText(item) == ""
    ensures IndexConforms([Delta(""), ItemDone(item)], Some(item))
  {
    var one := [Delta("")];
    DeltaFirst(one, "");
    StatesBuiltStep(one, ItemDone(item));
    assert one + [ItemDone(item)] == [Delta(""), ItemDone(item)];
  }

  lemma {:induction false} BuiltNeedsDelta(events: seq<Event>, index: int)
    ensures Built(Projection(events, index)).Some? <==> exists k :: 0 <= k < |events| && IsDeltaOf(events[k], index)
    decreases |events|
  {
    if events != [] {
      var n := |events| - 1;
      BuiltNeedsDelta(events[..n], index);
      BuiltStep(events, n, index);
      if k :| 0 <= k < n && IsDeltaOf(events[k], index) {
        assert IsDeltaOf(events[..n][k], index);
      }
      if IsDeltaOf(events[n], index) {
        assert exists k :: 0 <= k < |events| && IsDeltaOf(events[k], index);
      }
    }
  }

  lemma {:induction false} BuiltStep(events: seq<Event>, n: nat, index: int)
    requires n == |events| - 1
    ensures Built(Projection(events, index)).Some?
        <==> Built(Projection(events[..n], index)).Some? || IsDeltaOf(events[n], index)
  {
    ProjectionStep(events, n, index);
    assert events[..n + 1] == events;
    if events[n].body.Some? && events[n].index == index {
      StatesBuiltStep(Projection(events[..n], index), events[n].body.value);
    }
  }
}
