# Verified models of the deployment's tools

These Dafny modules model the algorithms that the deployment of Qwen3.8-27B relies on, and prove what each is for.
`dafny verify dfyconfig.toml` checks everything.

- **Source patches.** `PyText`, `Landmark`, `Placement`, `PatchData`, `Compiler`, `Positional`, `CompilerRuns` and
  `CompilerMain` model the compiler that turns reviewed diffs into content-addressed edits; `Transaction`, `PlanProofs`,
  `PlanRun`, `PatchGrammar` and `Commit` model the transaction that replays and installs them.
- **Checkpoint repair.** `Repair` and `RepairStream` model the in-place and the streamed substitution of the offset norms,
  `Publish` the protocol around them as a state machine whose steps any number of processes interleave, with a crash or an
  exception possible before every step.
- **Chat template.** `ChatTemplate` is one renderer with two profiles, the served template and the model's own one as the
  derivation's before blocks show it; `TemplateRun` is the served template as loops over namespaces; `TemplateProofs`,
  `TemplateTheorems`, `TemplateTurns`, `TemplateDerivation` and `ToolCalls` hold the theorems, `Stages` the derivation as a
  change of text.
- **Numerical audits.** `Bf16`, `Bf16Far`, `Accumulator`, `Gates`, `WeightAudit`, `Nvfp4`, `K8V4`, `Mrope` and `Division`, in
  exact integers and reals.
- **Checkers.** `StreamRule`, `Refusals`, `Shards`.

## Conventions

A script's exceptions and exits are `Result` or `Option` values. Code that updates state is a method or a class, proved
against a specification function or stating its result outright; the theorems are lemmas about those functions.

- A SHA-256 digest is the constructor `Sha256(text)`: equal digests mean equal texts.
- Parsed hunks are the patch compiler's input. Files and hunks break lines at `\n` only (`NewlineOnly`, `CleanTree`,
  `CleanReviews`): `splitlines` breaks at more characters than the line starts are counted by.
- `os.pread` and `os.pwrite` may transfer less than asked for; which bytes a crash leaves half written is arbitrary.
- Rendered prompts are pieces: turn markers and response tags are pieces only where the template writes them, so request
  text that spells one stays text. The fixed prose is a parameter (`Wording`), a tool and a non-string argument are their
  JSON text.
- BF16 and FP32 values are integers in units of 2^-149, rounded as section 4.3.1 of IEEE 754-2019 says; both zeros are one
  value. Accumulators and quantizers work over exact reals, and gates compare squares instead of roots.

## Where the code does less than it seems to

- `str.count` does not count overlaps. The compiler alone accepts hunks that its edits put elsewhere (`Placement.CountTrap`);
  of the compiler's output the plan's header-line check refuses exactly those (`PlanProofs.HeaderLineIsPlacement`), so
  accepted plans need no guard. Of other patch data the line check accepts edits that land inside their line as well
  (`PatchGrammar.MidLineLanding`), and an accepted plan is the reviewed diffs exactly if none of its edits does
  (`PatchGrammar.AnyAcceptedPlanExactly`).
- A path deleted by one stage and touched by a later one is read from disk again, so its recorded identity is the old file's
  (`CompilerRuns.IdentitiesChain`, `CompilerRuns.RereadDeletion`). No accepted plan contains that
  (`PlanProofs.NoRereadIsAccepted`).
- A failed commit restores the tree only under some schedules, and its rollback errors do not say which
  (`Commit.RestoredExactly`): a file whose replacement an interrupt left unrecorded stays (`Commit.InterruptIsNotUndone`), an
  interrupt between two restorations ends the rollback (`Commit.CutRollbackKeepsAll`), a file of mode 0 comes back with mode
  0644 (`Commit.RestoredIsExact`), and a restored file can be reported (`Commit.ReportedButRestored`).
- Without the generation prompt a history is no prefix of its continuation when the cut falls inside a run of tool messages,
  nor when it falls inside the leading system messages and more nonblank system text follows
  (`TemplateTheorems.HistoryIsPrefixExactly`, `ToolRunCut`, `SystemRunCut`).
- An `enable_thinking` that is neither undefined nor a boolean is accepted by both templates; the served one adds the reasoning
  instructions, the model's own one does not (`TemplateDerivation.DerivationPreservesExactly`, `OtherValueDiffers`).
- The aggregate cosine is not gated, and need not pass the gate that every merged tensor passed: it does for all tensors
  exactly if cosine^2 <= 1 - limit^2 (`Gates.CosineInheritedExactly`), which holds of neither gate in use
  (`Gates.GatesInUseNotInherited`).
- The stream rule refuses an item that streamed no delta even if its text is empty (`StreamRule.EmptyItemNeedsDelta`), and
  accepts a finished part without a text exactly where no delta came, even outside the snapshot
  (`StreamRule.TextlessPartExactly`, `StreamRule.OutsideSnapshotExactly`).
- The merge does not know how many shards there should be (`Shards.ZeroWithoutAShare`); the verdict speaks for all files
  exactly if the reports of all nonempty shares are there (`Shards.ZeroAccountsExactly`).
- Of all BF16 offsets exactly those from -256 to 256 come back as their gain less one (`Bf16.ExactFrom256To256`); beyond, the
  one is lost (`Bf16Far.RoundTripBeyond`).
- A stage can leave its block so that the reverse stage does not undo it (`Stages.StageNotUndone`, `Stages.StageUndoneExactly`).

## Model

| member | source | states |
|---|---|---|
| `Landmark.OccurrenceOffsets` | patches/source_patch_v1/compile_review_diff.py:79-89 | the loop lists every occurrence, overlapping ones included, in order |
| `PyText.OffsetsAreOccurrences` | patches/source_patch_v1/compile_review_diff.py:79-89 | a listed offset is an occurrence not before the start, and every such occurrence is listed |
| `PyText.CountOneMeansOverlapping` | patches/source_patch_v1/compile_review_diff.py:149-151 | `str.count` of 1 leaves room for further occurrences, each of which starts inside the leftmost one |
| `Landmark.AfterOutsideLandmark` | patches/source_patch_v1/framework.py:67-86 | the loop counts the occurrences of the after block that do not lie wholly inside the first landmark |
| `Landmark.AllInside` | patches/source_patch_v1/framework.py:67-86 | a count of zero means every occurrence of the after block lies inside the landmark |
| `Landmark.NoneOutside` | patches/source_patch_v1/framework.py:67-86 | conversely, if every occurrence lies inside, the count is zero |
| `Landmark.LineStarts` | patches/source_patch_v1/compile_review_diff.py:132-134 | the list of line starts puts offset o on the line numbered by the newlines before o |
| `Landmark.WidenUntilUnique` | patches/source_patch_v1/compile_review_diff.py:132-154 | the radius loop returns the first widened pair that counts once and whose after block lies nowhere outside, or refuses after the last radius |
| `Landmark.ExpandToUniqueLandmark` | patches/source_patch_v1/compile_review_diff.py:92-154 | expansion, all branches and refusals, computes `Expand` |
| `Placement.ExpandAcceptsExactlyAtItsLine` | patches/source_patch_v1/compile_review_diff.py:92-154 | expansion succeeds if and only if the block stands at the line its header names, and the final raise is unreachable |
| `Placement.ExpandStaysInPlace` | patches/source_patch_v1/compile_review_diff.py:132-153 | what expansion returns is the block in a common context, standing around the header line |
| `Placement.SearchSucceeds` | patches/source_patch_v1/compile_review_diff.py:140-153 | from any radius within the range the search finds a landmark: the last radius is the whole file |
| `Placement.UniqueLandmarkLandsAtItsLine` | patches/source_patch_v1/compile_review_diff.py:92-154 | a landmark with one occurrence, overlaps counted, is replaced exactly where the header places the hunk |
| `Placement.CountTrap` | patches/source_patch_v1/compile_review_diff.py:149-153 | counterexample: in a file of equal lines the compiler accepts a hunk whose leftmost replacement lands on another line than its header names |
| `CompilerMain.LoadTouched` | patches/source_patch_v1/compile_review_diff.py:185-193 | a touched path that the state lacks is read from disk, and its presence recorded |
| `CompilerMain.RefuseBadDeletions` | patches/source_patch_v1/compile_review_diff.py:194-206 | a deletion of a missing file, or of an empty one with hunks, is refused |
| `CompilerMain.CompileEdits` | patches/source_patch_v1/compile_review_diff.py:208-255 | each hunk becomes the landmark edit that is then applied by leftmost replacement to the state |
| `CompilerMain.CloseStage` | patches/source_patch_v1/compile_review_diff.py:257-280 | deleted files must be empty and leave the state; the others record their new digest |
| `CompilerMain.CompileReviewDiffs` | patches/source_patch_v1/compile_review_diff.py:157-300 | the whole run over the dictionaries computes `Compile` |
| `CompilerRuns.CompiledRunIsPositional` | patches/source_patch_v1/compile_review_diff.py:173-293 | an accepted run whose landmarks do not overlap themselves and that re-reads no deleted path leaves the tree that applying every hunk at its header line leaves |
| `CompilerRuns.IdentitiesChain` | patches/source_patch_v1/compile_review_diff.py:186-193 | at every stage a touched path's recorded identity is its last recorded one, if and only if that was not "deleted" with the file still on disk |
| `CompilerRuns.RereadDeletion` | patches/source_patch_v1/compile_review_diff.py:186-193 | such a run exists: an empty file deleted twice without a hunk is read back from disk the second time |
| `CompilerRuns.FinalsAreTheSurvivors` | patches/source_patch_v1/compile_review_diff.py:291-293 | `final_files` holds a path exactly if some stage touched it and its last record is not a deletion, with that record's digest |
| `CompilerRuns.StageRecords` | patches/source_patch_v1/compile_review_diff.py:257-280 | a stage records each touched path once, in touch order, with its identity before and after |
| `Positional.LandingIsPositional` | patches/source_patch_v1/compile_review_diff.py:208-255 | if every edit lands, compiling the hunks and applying them by line go hand in hand |
| `Positional.SoleEditsLand` | patches/source_patch_v1/compile_review_diff.py:214-244 | edits whose landmarks occur once, overlaps counted, all land |
| `PlanRun.ReplayEdit` | patches/source_patch_v1/framework.py:906-980 | one edit of the plan: landmark, order and both header-line checks, computes `PlanEdit` |
| `PlanRun.ReplayStage` | patches/source_patch_v1/framework.py:894-998 | before digests, edits, after digests and deletions of one stage compute `PlanStage` |
| `PlanRun.ReplayStages` | patches/source_patch_v1/framework.py:872-998 | the stages in order compute `PlanStages` |
| `PlanProofs.HeaderLineIsPlacement` | patches/source_patch_v1/framework.py:939-962 | the header-line check passes if and only if the leftmost landmark is the one around the hunk's own line |
| `PlanProofs.PlannedEditIsPositional` | patches/source_patch_v1/framework.py:906-980 | an edit the plan accepts has the effect of its hunk applied at its header line |
| `PlanProofs.AcceptedPlanIsPositional` | patches/source_patch_v1/framework.py:838-1040 | whatever the plan accepts of the compiler's output is the reviewed diffs applied line by line, with no guard on overlaps or re-reads |
| `PlanProofs.AcceptedPlanChains` | patches/source_patch_v1/framework.py:894-904 | in an accepted plan every stage's before digest is the path's last after digest |
| `PlanProofs.NoRereadIsAccepted` | patches/source_patch_v1/framework.py:838-904 | whatever the plan accepts of the compiler's output met every touched file as it was last left, so no file deleted by an earlier stage and still on disk was read again |
| `PatchGrammar.LandedEdit` | patches/source_patch_v1/framework.py:116-159 | an edit of the grammar replaces, where it lands, its review's old block by the new one |
| `PatchGrammar.AcceptedEditExactly` | patches/source_patch_v1/framework.py:906-980 | an edit of the grammar that the plan accepts is its hunk applied at its header line if and only if it lands where a line starts; otherwise the hunk does not apply there at all |
| `PatchGrammar.MidLineLanding` | patches/source_patch_v1/framework.py:939-962 | such an edit exists: the line check accepts one that lands inside its line |
| `PatchGrammar.AnyAcceptedPlanExactly` | patches/source_patch_v1/framework.py:838-1040 | for every patch of the grammar, whoever wrote it, an accepted plan is the reviewed diffs applied line by line if and only if each of its edits lands where a line starts |
| `Commit.SourceTree.Commit` | patches/source_patch_v1/framework.py:1055-1192 | under every schedule of failures, interrupts, other writers and failed restorations: whether it succeeds, reports or is cut short, what stands at each changed path, what the error reports, and that no other path changes |
| `Commit.SourceTree.ReplaceAll` | patches/source_patch_v1/framework.py:1107-1136 | the loop stops at the first round that is refused, interrupted, not synchronised or finds another writer's file, with everything before it replaced and recorded |
| `Commit.SourceTree.RollBack` | patches/source_patch_v1/framework.py:1150-1177 | unless an interrupt leaves the loop, every recorded replacement is put back, reported, or -- when only the synchronisation behind it failed -- both; an interrupt between two restorations leaves the earlier replacements in place |
| `Commit.RestoredExactly` | patches/source_patch_v1/framework.py:1107-1177 | a failed commit leaves the tree it found if and only if no interrupt left a change between a replacement and its record, no other writer intervened, and each recorded change was put back -- not by a failed or never reached restoration unless nothing was to be changed, and not over a file of mode 0 |
| `Commit.InterruptIsNotUndone` | patches/source_patch_v1/framework.py:1129-1133 | for each change, at any place in the list, there is a schedule under which it stays although the commit failed and no rollback error is reported |
| `Commit.CutRollbackKeepsAll` | patches/source_patch_v1/framework.py:1150-1152 | and one under which an interrupt before the first restoration leaves every change |
| `Commit.ReportedButRestored` | patches/source_patch_v1/framework.py:1171-1177 | and one under which a file is reported although it is restored |
| `Commit.RestoredIsExact` | patches/source_patch_v1/framework.py:1157-1170 | restoring is exact if and only if the file's permission bits were not all clear |
| `Repair.TensorRegion` | scripts/repair-offset-norms.py:151-184 | an accepted region lies behind the header and in the file, is not empty and has two bytes for each element |
| `Repair.FindRegion` | scripts/repair-offset-norms.py:151-184 | the checks and the loop over the dimensions compute `TensorRegion` |
| `Repair.WriteBlock` | scripts/repair-offset-norms.py:194-199 | however short the writes, the block ends up at its offset and nothing else changes |
| `Repair.CopyExactRange` | scripts/repair-offset-norms.py:187-202 | the range is copied exactly, a short read is refused, and no byte outside the range changes |
| `Repair.ReadExactRange` | scripts/repair-offset-norms.py:205-216 | the chunks read make up exactly the range, or the read is refused |
| `RepairStream.PatchNorm` | scripts/repair-offset-norms.py:336-367 | one tensor passes the metadata checks and has its range overwritten with the official bytes |
| `RepairStream.PatchNorms` | scripts/repair-offset-norms.py:324-377 | in name order, every tensor's range is overwritten |
| `RepairStream.FeedDigest` | scripts/repair-offset-norms.py:271-293 | the digest is fed the source between the replacements and the official bytes in them |
| `RepairStream.InPlaceEqualsStream` | scripts/repair-offset-norms.py:219-297 | the stream accepts exactly disjoint ranges, and then feeds the very bytes the in-place writes leave; every other byte is the source's |
| `Publish.PublishedIsCorrected` | scripts/repair-offset-norms.py:441-516 | in every run, crashes and rivals included, the source is never written and a target that exists is the verified corrected snapshot |
| `Publish.NothingPublishedChanges` | scripts/repair-offset-norms.py:457-516 | a manifest or target, once there, never changes |
| `Publish.OnlyBootstrapWritesManifest` | scripts/repair-offset-norms.py:457-460 | the manifest is written only by a run started to bootstrap, and only if there was none at the start |
| `Publish.PublishableExactly` | scripts/repair-offset-norms.py:469-516 | from any reachable state without a target a fresh process can publish if and only if the ranges are disjoint and no foreign manifest is pinned |
| `TemplateRun.Rendering.RenderList` | chat_template.jinja:3-41 | the macro's loop renders a content list and advances the picture and video counters |
| `TemplateRun.Rendering.RenderOne` | chat_template.jinja:8-34 | one item of a content list adds its text or picture, or refuses |
| `TemplateRun.Rendering.MergeSystem` | chat_template.jinja:45-56 | the system loop merges the leading run of system and developer messages |
| `TemplateRun.ResolveInstructions` | chat_template.jinja:57-72 | the three variable checks, in order, and the one effort that passes |
| `TemplateRun.Rendering.AppendHeader` | chat_template.jinja:73-95 | the system block with or without tools |
| `TemplateRun.Rendering.FindLastQuery` | chat_template.jinja:96-106 | the reverse loop finds the last query |
| `TemplateRun.Rendering.CallLines` | chat_template.jinja:121-153 | the calls of a message are framed one after another, or refused |
| `TemplateRun.Rendering.AppendTool` | chat_template.jinja:156-167 | a tool message opens, fills and closes its turn according to its neighbours |
| `TemplateRun.Rendering.AppendMessages` | chat_template.jinja:107-172 | the message loop appends exactly the body, or refuses as it does |
| `TemplateRun.RenderTemplate` | chat_template.jinja:42-176 | the whole template, piece by piece, computes `Render` |
| `TemplateTheorems.HistoryIsPrefixExactly` | chat_template.jinja:45-56 | without the generation prompt, a history renders to a prefix of an accepted extension if and only if the cut neither splits a tool run nor falls inside a leading system run that goes on with nonblank text |
| `TemplateTheorems.ToolRunCut` | chat_template.jinja:156-167 | an accepted conversation, whatever the request's options, whose history up to a cut between two tool messages is no prefix |
| `TemplateTheorems.SystemRunCut` | chat_template.jinja:45-56 | and one for a cut between two system messages, for every nonblank later text |
| `TemplateTheorems.GenerationPromptIsPrefix` | chat_template.jinja:114-120 | with the generation prompt, a history renders to a prefix of every accepted extension that goes on with an assistant turn |
| `TemplateTurns.TurnsAlternateExactly` | chat_template.jinja:107-176 | turn openings and closings alternate if and only if the first message is not a tool message, and only the generation prompt leaves a turn open |
| `TemplateTurns.ToolRunIsOneTurn` | chat_template.jinja:156-167 | a maximal run of k tool messages is one user turn with exactly k response blocks, holding the messages' contents in order |
| `ToolCalls.CallsReadBackExactly` | chat_template.jinja:121-153 | reading to the first closers and taking one newline off each end recovers all names and values, if and only if no name spells `>` and no value spells the closer |
| `ToolCalls.ArgumentReads` | chat_template.jinja:139-144 | one framed argument is read back exactly if it is clean, and misread otherwise |
| `TemplateDerivation.DerivedAcceptsExactly` | scripts/derive-chat-template.py:139-221 | the derived template accepts exactly the requests of its profile that the source template accepts at xhigh |
| `TemplateDerivation.DerivationPreservesExactly` | scripts/derive-chat-template.py:139-221 | what it accepts it renders as the source does at xhigh, if and only if `enable_thinking` is undefined or true |
| `TemplateDerivation.OtherValueDiffers` | scripts/derive-chat-template.py:139-172 | a request both templates accept and render differently |
| `TemplateDerivation.SourceKeepsBehindLastQuery` | scripts/derive-chat-template.py:209-219 | with `preserve_thinking` not true the source keeps an assistant turn's reasoning exactly when a query comes before it and none behind it |
| `TemplateDerivation.LastQueryIsLast` | chat_template.jinja:96-106 | the reverse loop's index is a query with none behind it, or there is none |
| `Stages.Derive` | scripts/derive-chat-template.py:286-290 | the fold over the stages computes `Derived` |
| `Stages.StageUndoneExactly` | scripts/derive-chat-template.py:119-127 | the reverse stage gives the text back if and only if the stage's block is counted once in the result, at the place where the stage put it |
| `Stages.StageUndone` | scripts/derive-chat-template.py:119-127 | that is so where the block occurs once, overlaps counted |
| `Stages.StageNotUndone` | scripts/derive-chat-template.py:119-127 | an accepted stage that its reverse does not undo |
| `Stages.RetracedExactly` | scripts/derive-chat-template.py:286-290 | undoing a derivation, last stage first, retraces all its texts if and only if each stage can be undone where it was applied |
| `Stages.DerivationUndone` | scripts/derive-chat-template.py:286-290 | undoing such stages, last one first, reconstructs the source text |
| `Bf16.NearestIsNearestEven` | scripts/audit_weight_quantization.py:330-332 | rounding picks the nearest multiple of the unit, and of two the even one |
| `Bf16Far.NoDoubleRounding` | scripts/audit_weight_quantization.py:330-332 | for every BF16 value rounding the sum through FP32 equals rounding it to BF16 at once |
| `Bf16.ExactFrom256To256` | scripts/audit_weight_quantization.py:330-332 | of all BF16 values exactly those in [-256, 256] come back as their gain less one, with nothing rounded |
| `Bf16.RoundTripError` | scripts/audit_weight_quantization.py:323-332 | the restored offset is exactly the gain less one, off by at most half a unit of the gain, and unchanged exactly when the sum is a BF16 value |
| `Bf16Far.RoundTripBeyond` | scripts/audit_weight_quantization.py:330-332 | of the BF16 values beyond 256 on either side, what comes back is the gain itself: the one is lost |
| `Bf16Far.RoundTripIdempotent` | scripts/audit_weight_quantization.py:323-332 | for every BF16 value a second round trip changes nothing |
| `Bf16.RoundTripOrdered` | scripts/audit_weight_quantization.py:323-332 | the round trip keeps the order of any two numbers |
| `Bf16.LostExactly` | scripts/audit_weight_quantization.py:326-327 | for every BF16 value the restored offset is zero if and only if the offset lies in [-2^-9, 2^-8] |
| `Accumulator.ErrorAccumulator.Update` | scripts/audit_weight_quantization.py:195-220 | one pair of tensors adds its sums; a shape mismatch adds nothing |
| `Accumulator.ErrorAccumulator.Merge` | scripts/audit_weight_quantization.py:222-231 | another accumulator's sums are added and it is left alone |
| `Accumulator.ChunksMerge` | scripts/audit_weight_quantization.py:195-231 | the sums of two chunks merge to the sums of both together |
| `Accumulator.MergeOrderIrrelevant` | scripts/audit_weight_quantization.py:222-231 | merging the same accumulators in any order gives the same total |
| `Accumulator.SumsAreDots` | scripts/audit_weight_quantization.py:195-220 | the element-by-element sums are the scalar products, absolute sum and maximum of the whole tensors |
| `Accumulator.SumsAreConsistent` | scripts/audit_weight_quantization.py:205-214 | for all tensors error^2 = reference^2 + approximation^2 - 2 dot and dot^2 <= reference^2 * approximation^2 |
| `Accumulator.MergeKeepsConsistent` | scripts/audit_weight_quantization.py:222-231 | merging keeps the identity between the sums |
| `Accumulator.MergeKeepsBound` | scripts/audit_weight_quantization.py:222-231 | merging keeps the Cauchy-Schwarz bound |
| `Accumulator.SineBelowError` | scripts/audit_weight_quantization.py:241-246 | reference^2 * approximation^2 - dot^2 <= error^2 * approximation^2 |
| `WeightAudit.AuditFp8` | scripts/audit_weight_quantization.py:382-417 | for every chunk size the accumulator holds the whole tensor's sums and the saturation count is complete; refused exactly for bad shapes or a scale that is not positive |
| `WeightAudit.CountChunk` | scripts/audit_weight_quantization.py:463-468 | the nibble histogram and the saturation count after one more chunk |
| `WeightAudit.AuditNvfp4` | scripts/audit_weight_quantization.py:420-493 | for every chunk size: whole-tensor sums, a complete code histogram, saturation equal to the bins of the two largest codes |
| `WeightAudit.HistogramIsComplete` | scripts/audit_weight_quantization.py:457-468 | the histogram's bins add up to the elements of the tensor |
| `Gates.MergeBehindGate` | scripts/audit_weight_quantization.py:652-663 | the merge succeeds exactly if every tensor passes, and then totals them all |
| `Gates.AggregateBounds` | scripts/audit_weight_quantization.py:652-663 | if every merged part is within relative error t < 1 then so is the total, and its squared cosine is at least 1 - t^2 |
| `Gates.PassedAggregate` | scripts/audit_weight_quantization.py:652-689 | tensors that pass a gate merge to an aggregate within its limit, aligned to a cosine of at least the root of 1 - limit^2 |
| `Gates.CosineInheritedExactly` | scripts/audit_weight_quantization.py:652-689 | for gates between 0 and 1: the aggregate of all lists of tensors that pass has the gate's cosine if and only if cosine^2 <= 1 - limit^2 |
| `Gates.GatesInUseNotInherited` | scripts/audit_weight_quantization.py:660-683 | for both gates in use two tensors that pass merge to an aggregate below the cosine gate |
| `Nvfp4.OffsetOfCoordinates` | scripts/nvfp4_kernel_unit.py:51-54 | row-major coordinates of an offset lie in the view and lead back to it |
| `Nvfp4.CoordinatesOfOffset` | scripts/nvfp4_kernel_unit.py:51-54 | and the offset of an element leads back to its coordinates |
| `Nvfp4.CellReadsItsOffset` | scripts/nvfp4_kernel_unit.py:42-55 | every cell of the padded grid reads inside the buffer, and no two cells read the same offset |
| `Nvfp4.OffsetHasItsCell` | scripts/nvfp4_kernel_unit.py:42-55 | every offset of the buffer is read by a cell |
| `Nvfp4.SwizzleFormula` | scripts/nvfp4_kernel_unit.py:48-54 | where a cell is read, as a formula in row and column |
| `Nvfp4.UnswizzleInverts` | scripts/nvfp4_kernel_unit.py:42-55 | scales laid out swizzled are recovered after cropping, for all sizes |
| `Nvfp4.UnpackedAt` | scripts/nvfp4_kernel_unit.py:32-39 | what the unpacked row holds at each position, by the table of all sixteen codes |
| `Nvfp4.TablesAgree` | scripts/nvfp4_kernel_unit.py:37-39 | sign times magnitude is the signed table |
| `Nvfp4.DecodeStrided` | scripts/audit_weight_quantization.py:470-474 | the audit's two strided writes produce the row that the kernel unit's unpacking produces |
| `Nvfp4.SwizzledDequantizesAlike` | scripts/nvfp4_kernel_unit.py:75-83 | dequantizing with swizzled scales equals dequantizing with linear ones |
| `Nvfp4.DequantizedAt` | scripts/nvfp4_kernel_unit.py:58-72 | every element is its table value times the scale of its group of sixteen over the divisor |
| `K8V4.ClampNeverActs` | scripts/turboquant_k8v4_unit.py:98-106 | the code before clamping already lies in 0..15, for every vector |
| `K8V4.RestoredWithinHalfStep` | scripts/turboquant_k8v4_unit.py:98-106 | a value is restored from its code to within half the scale |
| `K8V4.PackedAt` | scripts/turboquant_k8v4_unit.py:107-109 | each packed byte holds a pair of codes, low nibble first |
| `K8V4.DecodeNibbles` | scripts/turboquant_k8v4_unit.py:149-154 | the two strided writes undo the packing, for every even width |
| `K8V4.NearbyEvaluationsAccepted` | scripts/turboquant_k8v4_unit.py:145-170 | evaluations within epsilon < 1/2 give different codes only within epsilon of an integer, and then by one step |
| `K8V4.ToleranceIsTight` | scripts/turboquant_k8v4_unit.py:156-170 | closer than epsilon to an integer, some evaluation within epsilon truncates differently |
| `StreamRule.CheckStream` | scripts/responses_stream_rule.py:35-71 | each outcome of the check says exactly which condition fails; acceptance is exactly `Conforms` |
| `StreamRule.InterleavingIrrelevant` | scripts/responses_stream_rule.py:44-71 | acceptance is decided index by index and survives any renumbered re-interleaving |
| `StreamRule.NothingBehindDone` | scripts/responses_stream_rule.py:51-66 | behind an index's last output_item.done only empty deltas follow |
| `StreamRule.ExactlyTheItemsStream` | scripts/responses_stream_rule.py:60-66 | exactly the indexes of the snapshot stream a delta; an item that streams none is refused |
| `StreamRule.EmptyItemNeedsDelta` | scripts/responses_stream_rule.py:44-71 | an item with an empty text that streamed no delta is refused, and accepted once it streamed an empty one |
| `StreamRule.TextlessPartExactly` | scripts/responses_stream_rule.py:51-59 | a finished part that states no text passes exactly where its index has streamed no delta |
| `StreamRule.OutsideSnapshotExactly` | scripts/responses_stream_rule.py:51-71 | an index the snapshot does not have passes exactly if it has nothing but finished parts that state no text |
| `StreamRule.PartOutsideSnapshot` | scripts/responses_stream_rule.py:51-71 | such a stream is accepted |
| `Mrope.OfficialImageReference` | scripts/qwen38_context_unit.py:50-102 | the loop over the sorted placements computes `Reference` |
| `Mrope.AcceptsExactly` | scripts/qwen38_context_unit.py:63-100 | placements whose token counts are their grids are accepted exactly if they are apart and end within a prompt that is not empty |
| `Mrope.TextContinuesAbove` | scripts/qwen38_context_unit.py:64-69 | there is a column for each token, and every text column has three equal coordinates right above all earlier ones |
| `Mrope.ImageStartsAbove` | scripts/qwen38_context_unit.py:71-92 | each image stands at its offset, starts right above all earlier columns and counts rows and columns from there |
| `Mrope.DeltaContinues` | scripts/qwen38_context_unit.py:101-102 | the delta is the sum of max(h,w) - h*w, never positive, and length + delta is one more than the largest coordinate |
| `Mrope.ListOrderIrrelevant` | scripts/qwen38_context_unit.py:63-63 | the order of the list of images does not matter |
| `Mrope.OfficialAxes` | scripts/qwen38_context_unit.py:183-193 | the strided overwrites give the same axis to every slot as the predicates, for all sections that fit |
| `Refusals.ReadDeclarations` | scripts/served_refusal_types.py:33-53 | declarations are accepted exactly if each has one name as wire type and no class is declared twice |
| `Refusals.FindMembers` | scripts/served_refusal_types.py:54-63 | the loop finds exactly the classes with a chain of declared bases to ToolCallRefusedError, in at most as many productive rounds as there are classes |
| `Refusals.StableIsMembership` | scripts/served_refusal_types.py:54-63 | a round that finds nothing has found exactly the members |
| `Refusals.ClosedGroupsAreRefused` | scripts/served_refusal_types.py:64-67 | classes that derive only from one another are no members |
| `Refusals.OrderIrrelevant` | scripts/served_refusal_types.py:34-53 | the order in which declarations are read does not matter |
| `Refusals.ServedTypes` | scripts/served_refusal_types.py:71-82 | the run succeeds exactly if something is declared, all are members and no wire type is shared, and prints one type for each class |
| `Shards.SharesPartition` | scripts/reviewed_tests_plugin.py:205-208 | for every N the strided shares together are the files, each exactly once |
| `Shards.RunsInAFork` | scripts/reviewed_tests_plugin.py:173-185 | the fork test is right for every chain of wrappers and terminates on cyclic ones |
| `Shards.Configure` | scripts/reviewed_tests_plugin.py:198-210 | a shard option is refused unless 1 <= I <= N and there is a reviewed file |
| `Shards.Run.IgnoreCollect` | scripts/reviewed_tests_plugin.py:256-267 | offline, a module that declares a need is recorded and left uncollected |
| `Shards.Run.ModifyItems` | scripts/reviewed_tests_plugin.py:279-314 | collected files and tests, forking tests, tests that declare a need, and what is kept to run |
| `Shards.KeptExactly` | scripts/reviewed_tests_plugin.py:294-314 | exactly the collected tests that neither fork nor, offline, declare a need are kept |
| `Shards.Run.FinishSession` | scripts/reviewed_tests_plugin.py:316-351 | collection errors, unaccounted files and the exit status |
| `Shards.Merge` | scripts/reviewed_tests_plugin.py:410-506 | the merged verdict is zero exactly if each log holds one report, all of one set, and all of them clean |
| `Shards.ZeroAccountsForAll` | scripts/reviewed_tests_plugin.py:410-506 | a zero verdict over the reports of all N shares accounts for every reviewed file: collected, or offline declared a need |
| `Shards.AccountedIsShared` | scripts/reviewed_tests_plugin.py:410-506 | behind a zero verdict a file is accounted for if and only if the share of some merged report has it |
| `Shards.ZeroAccountsExactly` | scripts/reviewed_tests_plugin.py:410-506 | a zero verdict accounts for every reviewed file if and only if the reports of all nonempty shares were merged, when no file is listed twice |
| `Shards.ZeroWithoutAShare` | scripts/reviewed_tests_plugin.py:410-506 | one of two shards reported: the verdict is zero and the other's file is in no report |

## Left out

- Bf16.RoundTripError: says nothing of offsets beyond 256 on either side, where the gain itself comes back
  (Bf16Far.RoundTripBeyond) and half a unit does not bound the error.
- Stages.DerivationUndone: that the script's own stages meet its hypothesis is not shown; their source template is not part of
  the repository, only its digest.
- CompilerRuns.CompiledRunIsPositional: one direction only, because two misplaced edits can cancel out in the tree; the exact
  condition is stated for each edit by PlanProofs.HeaderLineIsPlacement.
- Commit.SourceTree.Commit: temporary files have no state, another writer acts only right before the check of the file it
  writes.
- PatchGrammar.AnyAcceptedPlanExactly: patch data with file names, paths or digests that the grammar refuses is not modelled;
  blocks are taken to be whole lines, as the review parser reads them from text whose only separator is the newline.
- Nvfp4.DequantizedAt: stops before the final rounding to BF16.
- K8V4.RestoredWithinHalfStep: uses the exact scale and minimum, not the FP16 ones that are stored beside the codes.
- Accumulator.ErrorAccumulator.Update: sums exactly; the FP64 rounding of the sums and the finiteness checks are not modelled.
- StreamRule.CheckStream: an event without the keys its type needs, and a part whose text is null, are outside the model.
- The parser of review diffs, the artifact and path checks, file modes, blob ids, the Python syntax check and the validators of
  the plan, and the re-planning at the start of a commit.
- Manifest, index and safetensors header syntax, argument parsing, progress output and durability below an atomic rename.
- HTTP probes, timing and metrics, the serving engine's internals, and every CUDA, Triton, Torch and safetensors call.
- E4M3 keys, the attention reference and the cache layout of the K8V4 unit; kernel selection in the NVFP4 unit.
- The K/V scale audit, the tensor accounting of the audit's `main` and its exact tensor counts.
- The symbol-table check for unbound names, skip reasons and summary texts of the reviewed-test runner.
- Reading class declarations from Python sources; declarations are the input of the refusal-family model.
