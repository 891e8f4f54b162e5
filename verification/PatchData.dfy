/** The data the patch compiler and the source transaction exchange. */
module PatchData {
  import opened Wrappers
  import opened Landmark

  /** A SHA-256 identity, taken to be collision free: two digests are equal only for equal texts. */
  datatype Digest = Sha256(text: string)

  function EmptyFileSha256(): Digest { Sha256("") }

  /** One parsed hunk: its blocks and the coordinates its header states. */
  datatype Hunk = Hunk(path: string, block: Block, oldStart: int, oldCount: nat, newStart: int, newCount: nat)

  /** One parsed review diff: its hunks in order, and the paths it deletes in sorted order. */
  datatype Review = Review(hunks: seq<Hunk>, deleted: seq<string>)

  /** `before` None: the stage creates the file; `after` None: it deletes the file. */
  datatype FileIdentity = FileIdentity(path: string, before: Option<Digest>, after: Option<Digest>)

  datatype Edit = Edit(path: string, landmark: Block, review: Block)

  datatype StageData = StageData(files: seq<FileIdentity>, edits: seq<Edit>)

  datatype Generated = Generated(identity: map<string, Digest>, stages: seq<StageData>, finals: map<string, Digest>)

  /** Every file record of the stages, in order. */
  function Records(stages: seq<StageData>): seq<FileIdentity> {
    if stages == [] then [] else stages[0].files + Records(stages[1..])
  }

  /** A source tree: the text of every file that exists. */
  type Tree = map<string, string>

  function DigestIn(tree: Tree, path: string): Option<Digest> {
    if path in tree then Some(Sha256(tree[path])) else None
  }

  function TextIn(tree: Tree, path: string): string {
    if path in tree then tree[path] else ""
  }

  /** The paths a review touches: its hunks' paths and its deletions, first mention first. */
  function Touched(review: Review): seq<string> {
    Distinct(PathsOf(review.hunks) + review.deleted)
  }

  function PathsOf(hunks: seq<Hunk>): (paths: seq<string>)
    ensures |paths| == |hunks| && forall i | 0 <= i < |hunks| :: paths[i] == hunks[i].path
  {
    if hunks == [] then [] else [hunks[0].path] + PathsOf(hunks[1..])
  }

  /** `dict.fromkeys`: the first of every run of equal items, in order. */
  function Distinct(items: seq<string>): (r: seq<string>)
    ensures forall x :: x in r <==> x in items
    ensures forall i, j | 0 <= i < j < |r| :: r[i] != r[j]
  {
    if items == [] then []
    else
      var init := Distinct(items[..|items| - 1]);
      var last := items[|items| - 1];
      assert items == items[..|items| - 1] + [last];
      if last in init then init else init + [last]
  }
}
