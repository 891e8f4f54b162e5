/** Python's string primitives, as far as the patch compiler and the source transaction use them:
    `find`, `count`, `replace(.., 1)`, `splitlines(keepends=True)` and newline counting. */
module PyText {

  /** `needle` stands in `text` at offset `i`. */
  predicate OccursAt(text: string, needle: string, i: int) {
    0 <= i && i + |needle| <= |text| && text[i..i + |needle|] == needle
  }

  /** `text.find(needle, start)`: the leftmost occurrence not before `start`, or -1. */
  function Find(text: string, needle: string, start: nat): (r: int)
    ensures r == -1 || (start <= r && OccursAt(text, needle, r))
    decreases |text| - start
  {
    if start + |needle| > |text| then -1
    else if OccursAt(text, needle, start) then start
    else Find(text, needle, start + 1)
  }

  /** Nothing occurs before what is found. */
  lemma {:induction false} FindIsFirst(text: string, needle: string, start: nat, j: int)
    requires start <= j && OccursAt(text, needle, j)
    ensures 0 <= Find(text, needle, start) <= j
    decreases |text| - start
  {
    if !OccursAt(text, needle, start) {
      FindIsFirst(text, needle, start + 1, j);
    }
  }

  /** `text.count(needle)`: occurrences counted left to right WITHOUT overlaps. */
  function Count(text: string, needle: string): nat {
    if needle == "" then |text| + 1 else CountFrom(text, needle, 0)
  }

  function CountFrom(text: string, needle: string, start: nat): nat
    requires needle != ""
    decreases |text| - start
  {
    var found := Find(text, needle, start);
    if found < 0 then 0 else 1 + CountFrom(text, needle, found + |needle|)
  }

  /** `text.replace(before, after, 1)`. */
  function ReplaceFirst(text: string, before: string, after: string): string {
    var at := Find(text, before, 0);
    if at < 0 then text else Splice(text, at, |before|, after)
  }

  /** `text` with the `size` characters from `at` replaced by `after`. */
  function Splice(text: string, at: nat, size: nat, after: string): string
    requires at + size <= |text|
  {
    text[..at] + after + text[at + size..]
  }

  /** The offsets of every occurrence not before `start`, overlapping ones included, in order. */
  function OffsetsFrom(text: string, needle: string, start: nat): seq<nat>
    decreases |text| + 1 - start
  {
    var found := Find(text, needle, start);
    if found < 0 then [] else [found] + OffsetsFrom(text, needle, found + 1)
  }

  lemma {:induction false} OffsetsAreOccurrences(text: string, needle: string, start: nat)
    ensures forall i: nat :: i in OffsetsFrom(text, needle, start) <==> start <= i && OccursAt(text, needle, i)
  {
    forall i: nat ensures i in OffsetsFrom(text, needle, start) <==> start <= i && OccursAt(text, needle, i) {
      OffsetListed(text, needle, start, i);
    }
  }

  lemma {:induction false} OffsetListed(text: string, needle: string, start: nat, i: nat)
    ensures i in OffsetsFrom(text, needle, start) <==> start <= i && OccursAt(text, needle, i)
    decreases |text| + 1 - start
  {
    var found := Find(text, needle, start);
    OffsetsStep(text, needle, start, found);
    if start <= i && OccursAt(text, needle, i) {
      FindIsFirst(text, needle, start, i);
    }
    if found >= 0 {
      OffsetListed(text, needle, found + 1, i);
      FirstListed(found, OffsetsFrom(text, needle, found + 1), i);
    }
  }

  lemma {:induction false} OffsetsStep(text: string, needle: string, start: nat, found: int)
    requires found == Find(text, needle, start)
    ensures OffsetsFrom(text, needle, start) == if found < 0 then [] else [found] + OffsetsFrom(text, needle, found + 1)
  {
  }

  lemma {:induction false} FirstListed(first: nat, rest: seq<nat>, i: nat)
    ensures i in [first] + rest <==> i == first || i in rest
  {
  }

  /** Exactly one offset is listed only when exactly one occurrence exists. */
  lemma {:induction false} SoleOffset(text: string, needle: string, at: nat)
    requires |OffsetsFrom(text, needle, 0)| == 1 && OccursAt(text, needle, at)
    ensures Find(text, needle, 0) == at
    ensures forall j | OccursAt(text, needle, j) :: j == at
  {
    var offsets := OffsetsFrom(text, needle, 0);
    OffsetsAreOccurrences(text, needle, 0);
    assert at in offsets;
    forall j | OccursAt(text, needle, j) ensures j == at {
      var k: nat := j;
      assert k in offsets;
    }
  }

  /** `count == 1` leaves room for further occurrences, but only ones that overlap the first. */
  lemma {:induction false} CountOneMeansOverlapping(text: string, needle: string)
    requires Count(text, needle) == 1
    ensures Find(text, needle, 0) >= 0
    ensures forall j | OccursAt(text, needle, j) ::
              j == Find(text, needle, 0) || Find(text, needle, 0) < j < Find(text, needle, 0) + |needle|
  {
    var first := Find(text, needle, 0);
    if needle == "" {
      FindIsFirst(text, needle, 0, 0);
    } else {
      assert CountFrom(text, needle, 0) == 1 + CountFrom(text, needle, first + |needle|);
      assert Find(text, needle, first + |needle|) < 0;
    }
    forall j | OccursAt(text, needle, j) ensures j == first || first < j < first + |needle| {
      FindIsFirst(text, needle, 0, j);
      if j >= first + |needle| { FindIsFirst(text, needle, first + |needle|, j); }
    }
  }

  /** The whole of a text occurs in it once. */
  lemma {:induction false} WholeCountsOnce(text: string)
    ensures Count(text, text) == 1 && Find(text, text, 0) == 0
  {
    assert OccursAt(text, text, 0);
    if text != "" {
      assert CountFrom(text, text, 0) == 1 + CountFrom(text, text, |text|);
    }
  }

  /** `text.count("\n")`. */
  function Newlines(text: string): nat {
    if text == "" then 0 else (if text[0] == '\n' then 1 else 0) + Newlines(text[1..])
  }

  lemma {:induction false} NewlinesConcat(a: string, b: string)
    ensures Newlines(a + b) == Newlines(a) + Newlines(b)
  {
    if a == "" {
      assert a + b == b;
    } else {
      assert (a + b)[1..] == a[1..] + b;
      NewlinesConcat(a[1..], b);
    }
  }

  /** Stepping forward to a position just behind a newline passes at least one more newline. */
  lemma {:induction false} NewlinesGrowToLineStart(text: string, lo: nat, hi: nat)
    requires lo < hi <= |text| && text[hi - 1] == '\n'
    ensures Newlines(text[..lo]) < Newlines(text[..hi])
  {
    assert text[..hi] == text[..lo] + (text[lo..hi - 1] + ['\n']);
    NewlinesConcat(text[..lo], text[lo..hi - 1] + ['\n']);
    NewlinesConcat(text[lo..hi - 1], ['\n']);
    assert Newlines(['\n']) == 1;
  }

  // ----- splitlines(keepends=True) -----

  /** The separators `str.splitlines` breaks on: more than the newline. */
  predicate IsSeparator(c: char) {
    c in {'\n', '\r', '\U{0B}', '\U{0C}', '\U{1C}', '\U{1D}', '\U{1E}', '\U{85}', '\U{2028}', '\U{2029}'}
  }

  /** A line ends behind position `i`: a separator stands there, and not the first half of CR LF. */
  predicate BreaksAfter(text: string, i: nat)
    requires i < |text|
  {
    IsSeparator(text[i]) && !(text[i] == '\r' && i + 1 < |text| && text[i + 1] == '\n')
  }

  /** The length of the first line, its separator included. */
  function LineLength(text: string, from: nat): (n: nat)
    requires from < |text|
    ensures from < n <= |text|
    ensures n < |text| ==> BreaksAfter(text, n - 1)
    ensures forall i | from <= i < n - 1 :: !BreaksAfter(text, i)
    decreases |text| - from
  {
    if BreaksAfter(text, from) || from + 1 == |text| then from + 1 else LineLength(text, from + 1)
  }

  function SplitLines(text: string): seq<string> {
    if text == "" then []
    else
      var n := LineLength(text, 0);
      [text[..n]] + SplitLines(text[n..])
  }

  lemma {:induction false} SplitLinesJoin(text: string)
    ensures Join(SplitLines(text)) == text
    decreases |text|
  {
    if text != "" {
      SplitLinesJoin(text[LineLength(text, 0)..]);
    }
  }

  /** `"".join(lines)`. */
  function Join(lines: seq<string>): string {
    if lines == [] then "" else lines[0] + Join(lines[1..])
  }

  /** `sum(len(line) for line in lines)`. */
  function TotalLength(lines: seq<string>): nat {
    if lines == [] then 0 else |lines[0]| + TotalLength(lines[1..])
  }

  lemma {:induction false} JoinConcat(a: seq<string>, b: seq<string>)
    ensures Join(a + b) == Join(a) + Join(b)
  {
    if a == [] {
      assert a + b == b;
    } else {
      assert (a + b)[1..] == a[1..] + b;
      JoinConcat(a[1..], b);
    }
  }

  lemma {:induction false} JoinLength(lines: seq<string>)
    ensures |Join(lines)| == TotalLength(lines)
  {
    if lines != [] {
      JoinLength(lines[1..]);
    }
  }

  /** The lines from `a` up to `b` are exactly the text between their offsets. */
  lemma {:induction false} JoinSlice(lines: seq<string>, a: nat, b: nat)
    requires a <= b <= |lines|
    ensures TotalLength(lines[..a]) <= TotalLength(lines[..b]) <= |Join(lines)|
    ensures Join(lines[a..b]) == Join(lines)[TotalLength(lines[..a])..TotalLength(lines[..b])]
  {
    JoinLength(lines[..a]);
    JoinLength(lines[..b]);
    JoinConcat(lines[..a], lines[a..b]);
    assert lines[..a] + lines[a..b] == lines[..b];
    JoinConcat(lines[..b], lines[b..]);
    assert lines[..b] + lines[b..] == lines;
  }

  /** The text uses no separator but the newline, so `splitlines` and `"\n"` agree about lines. */
  predicate NewlineOnly(text: string) {
    forall i | 0 <= i < |text| :: IsSeparator(text[i]) ==> text[i] == '\n'
  }

  /** The line that holds offset `o` is the one numbered by the newlines before `o`. */
  lemma {:induction false} LineHolding(text: string, o: nat)
    requires NewlineOnly(text) && o < |text|
    ensures Newlines(text[..o]) < |SplitLines(text)|
    ensures TotalLength(SplitLines(text)[..Newlines(text[..o])]) <= o
    ensures o < TotalLength(SplitLines(text)[..Newlines(text[..o]) + 1])
    decreases |text|
  {
    var n := LineLength(text, 0);
    if o < n {
      InFirstLine(text, o);
    } else {
      BehindFirstLine(text, o, n);
      LineHolding(text[n..], o - n);
      LinesBehindFirst(text, n, Newlines(text[n..][..o - n]));
      LinesBehindFirst(text, n, Newlines(text[n..][..o - n]) + 1);
    }
  }

  lemma {:induction false} InFirstLine(text: string, o: nat)
    requires NewlineOnly(text) && o < |text| && o < LineLength(text, 0)
    ensures Newlines(text[..o]) == 0 && SplitLines(text) != []
    ensures TotalLength(SplitLines(text)[..0]) == 0 && TotalLength(SplitLines(text)[..1]) == LineLength(text, 0)
  {
    var lines := SplitLines(text);
    forall i | 0 <= i < o ensures text[i] != '\n' { assert !BreaksAfter(text, i); }
    NoNewline(text[..o]);
    assert lines[..0] == [] && lines[..1] == [lines[0]] && [lines[0]][1..] == [];
  }

  /** Behind the first line there is one newline more. */
  lemma {:induction false} BehindFirstLine(text: string, o: nat, n: nat)
    requires NewlineOnly(text) && o < |text| && n == LineLength(text, 0) <= o
    ensures Newlines(text[..o]) == 1 + Newlines(text[n..][..o - n])
    ensures NewlineOnly(text[n..])
  {
    assert BreaksAfter(text, n - 1);
    forall i | 0 <= i < n - 1 ensures text[i] != '\n' { assert !BreaksAfter(text, i); }
    NoNewline(text[..n - 1]);
    OneNewline(text, n - 1, o);
    assert text[n..][..o - n] == text[n..o];
  }

  lemma {:induction false} OneNewline(text: string, at: nat, o: nat)
    requires at < o <= |text| && text[at] == '\n' && Newlines(text[..at]) == 0
    ensures Newlines(text[..o]) == 1 + Newlines(text[at + 1..o])
  {
    assert text[..o] == text[..at] + ['\n'] + text[at + 1..o];
    NewlinesConcat(text[..at] + ['\n'], text[at + 1..o]);
    NewlinesConcat(text[..at], ['\n']);
    assert Newlines(['\n']) == 1;
  }

  lemma {:induction false} LinesBehindFirst(text: string, n: nat, k: nat)
    requires text != "" && n == LineLength(text, 0) && k <= |SplitLines(text[n..])|
    ensures |SplitLines(text)| == 1 + |SplitLines(text[n..])|
    ensures TotalLength(SplitLines(text)[..k + 1]) == n + TotalLength(SplitLines(text[n..])[..k])
  {
    var lines := SplitLines(text);
    assert lines == [text[..n]] + SplitLines(text[n..]);
    assert lines[..k + 1][0] == text[..n] && lines[..k + 1][1..] == SplitLines(text[n..])[..k];
  }

  lemma {:induction false} NoNewline(text: string)
    requires forall i | 0 <= i < |text| :: text[i] != '\n'
    ensures Newlines(text) == 0
  {
    if text != "" {
      NoNewline(text[1..]);
    }
  }

  /** The lines of a text from `a` up to `b` are exactly the text between their offsets. */
  lemma {:induction false} LinesSlice(text: string, a: nat, b: nat)
    requires a <= b <= |SplitLines(text)|
    ensures TotalLength(SplitLines(text)[..a]) <= TotalLength(SplitLines(text)[..b]) <= |text|
    ensures Join(SplitLines(text)[a..b])
         == text[TotalLength(SplitLines(text)[..a])..TotalLength(SplitLines(text)[..b])]
  {
    SplitLinesJoin(text);
    JoinSlice(SplitLines(text), a, b);
  }

  /** All the lines make up the whole text. */
  lemma {:induction false} AllLines(text: string)
    ensures TotalLength(SplitLines(text)[..|SplitLines(text)|]) == |text|
  {
    SplitLinesJoin(text);
    JoinLength(SplitLines(text));
    assert SplitLines(text)[..|SplitLines(text)|] == SplitLines(text);
  }

  /** Offsets of lines only grow. */
  lemma {:induction false} TotalLengthMonotone(lines: seq<string>, a: nat, b: nat)
    requires a <= b <= |lines|
    ensures TotalLength(lines[..a]) <= TotalLength(lines[..b])
  {
    JoinSlice(lines, a, b);
  }

  /** A line's offset has as many newlines before it as there are lines before it. */
  lemma {:induction false} NewlinesBeforeLine(text: string, k: nat)
    requires NewlineOnly(text) && k <= |SplitLines(text)|
    requires TotalLength(SplitLines(text)[..k]) < |text|
    ensures Newlines(text[..TotalLength(SplitLines(text)[..k])]) == k
  {
    var lines := SplitLines(text);
    var o := TotalLength(lines[..k]);
    LineHolding(text, o);
    var m := Newlines(text[..o]);
    if m < k {
      TotalLengthMonotone(lines, m + 1, k);
    } else if k < m {
      LinesAreNonempty(text);
      TotalLengthStep(lines, k);
      TotalLengthMonotone(lines, k + 1, m);
    }
  }

  lemma {:induction false} LinesAreNonempty(text: string)
    ensures forall i | 0 <= i < |SplitLines(text)| :: SplitLines(text)[i] != ""
    decreases |text|
  {
    if text != "" {
      LinesAreNonempty(text[LineLength(text, 0)..]);
    }
  }

  lemma {:induction false} TotalLengthStep(lines: seq<string>, k: nat)
    requires k < |lines|
    ensures TotalLength(lines[..k + 1]) == TotalLength(lines[..k]) + |lines[k]|
  {
    JoinLength(lines[..k + 1]);
    JoinLength(lines[..k]);
    assert lines[..k + 1] == lines[..k] + [lines[k]];
    JoinConcat(lines[..k], [lines[k]]);
    assert Join([lines[k]]) == lines[k] + Join([]);
  }

  /** Every line but the first starts just behind a newline. */
  lemma {:induction false} LineStartsBehindNewline(text: string, k: nat)
    requires NewlineOnly(text) && 0 < k <= |SplitLines(text)|
    requires TotalLength(SplitLines(text)[..k]) < |text|
    ensures TotalLength(SplitLines(text)[..k]) > 0
    ensures text[TotalLength(SplitLines(text)[..k]) - 1] == '\n'
    decreases |text|
  {
    var lines := SplitLines(text);
    var n := LineLength(text, 0);
    assert lines[0] == text[..n] && lines[1..] == SplitLines(text[n..]);
    assert lines[..k][1..] == lines[1..][..k - 1];
    assert TotalLength(lines[..k]) == n + TotalLength(lines[1..][..k - 1]);
    if k == 1 {
      assert lines[1..][..0] == [];
      assert BreaksAfter(text, n - 1);
    } else {
      LineStartsBehindNewline(text[n..], k - 1);
    }
  }
}
