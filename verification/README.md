# Agent runtime verification

A model of the core of a coding-agent runtime and proofs about it: how a conversation is kept in the form a
model provider accepts while it is projected, pruned and extended; how one run is steered by its hosts while an
executor drives it; what its budgets bound; and how messages and cancellation are delivered between threads.

Check everything with `dafny verify dfyconfig.toml`.

## How it is organised

- `Transcript` is the data model and the request check, `Pairing` its call discipline told by blocks; `ModelView` is
  the projection a provider sees, `ToolImages` the resolution of pictures in tool results. `Projection` and
  `Resolution` say in closed form what is shown, and that everything said survives.
- `Units`, `Pruning`, `PruneShape`, `PruneWindow`, `LegacyPruning`, `LegacyWindow`, `PruneSafety`, `PruneReach`,
  `RemovalSafety` and `ContextPolicy` cover the two pruning compactors: what the recent window protects, what is
  tried and removed, and when the result is safe. The token counter is an arbitrary function; an additive one is
  assumed only where a contract says so.
- `Control`, `ControlRuns`, `ControlLedger`, `ControlObject` and `ControlSound` are the shared state of a controlled
  run. Every locked section is one method of a class, proved equal to a function on values, and the theorems are
  about every interleaving of those functions.
- `Lifecycle`, `Conversation` and `Executor` are the executor loop. What the world decides (journal, provider,
  verifier, tools, policy, clock) is a nondeterministic choice, and between any two steps other threads take
  any number of steps of their own.
- `Limits` and `Utf8` are the budgets, `Inbox` and `InboxQueue` the claimed delivery of host messages,
  `Cancellation` the context tree, `Lines` the command-line reader, `Wrappers` bounded machine arithmetic.

Code that works on values is written as functions, and the loops and mutable objects of the program as methods and
classes proved against those functions. Unsaturated `usize` and `u64` arithmetic is on mathematical integers with
the bounds proved; saturating and checked operations and the cast to 32 bits are written out.

## What the proofs found

- The borrowed fast path of the projection is not always the full rewrite: an assistant message with no content is
  dropped by the rewrite and kept by the fast path. `ModelView.FastPathIff` is the exact condition.
- Because of that, pruning can make an accepted request unacceptable: removing the last message that forces the
  rewrite exposes an empty assistant message (`PruneSafety.FastPathExposesEmptyMessage`). Pruning is safe, for every
  counter, target and recent window, exactly when every empty assistant message is followed by a message that forces
  the rewrite (`PruneReach.PruningSafeIff`); the same condition is exact for every removal of the oldest units
  (`PruneSafety.OldestRemovalsSafeIff`).
- Removing an arbitrary set of units can also bring an old picture back into the newest four that the provider does
  not accept (`RemovalSafety.RemovalRevivesImage`). Every removal is safe exactly when no assistant message is empty
  and each unit, shown on its own, is acceptable (`RemovalSafety.AnyRemovalAcceptedIff`).
- Queue identifiers are not always increasing: a reservation can complete after an input that was submitted later,
  and then stands behind it with a smaller identifier (`ControlRuns.ReservationsOvertaken`). They increase in every
  state of a run exactly when no reservation completes behind a queued input with a later identifier
  (`ControlRuns.QueueAlwaysRisesIff`). Right after an accepted submission some step can do that exactly when a
  reservation is outstanding (`ControlRuns.SubmitRisksOvertakingIff`); one that is given up does no harm.
- For the same reason inputs of one kind can be applied out of identifier order, although each is the oldest of its
  kind in the queue (`ControlRuns.AppliedOutOfOrder`). The applied identifiers of a kind increase exactly when no
  reservation that completed behind an accepted input of its kind with a later identifier is among those applied
  (`ControlRuns.AppliedAlwaysRisesIff`).
- The guard around context policies refuses the window policy's own answer when the compactor is configured with a
  zero target (`ContextPolicy.WindowPolicyRefusedIff`).
- Of the executor's checks on a compaction only the one on reduction can refuse what deterministic pruning returns,
  and it does so exactly when the context was within the target already (`Conversation.CompactionAdmittedIff`).

## Assumptions about the world

- A provider reply carries no tool-result blocks; a dispatcher answers every call of a reply, one each, in order.
- Request limits on output tokens, and the model's own limit, are positive when they are set: request and model
  validation reject zero before the executor sees it.
- The messages in front of a conversation are system messages: its preparation checks that before the loop.
- A transcript has fewer than 2^64 - 1 messages; only `PruneReach.PruningSafeIff` needs it.
- Random claim tokens and run identifiers are new.
- Cancelling a token and propagating the cancellation to the tokens below it is one atomic step.

## Model

| member | source | states |
|---|---|---|
| Transcript.Validate | crates/aicoder-core/src/model.rs:337-457 | The message loop with its mutable set of unanswered calls returns the first fault, in order, that the specification function finds |
| Transcript.ValidIff | crates/aicoder-core/src/model.rs:337-457 | Validation accepts exactly the nonempty lists whose messages are each valid on their own and whose calls and results are paired |
| Transcript.BlockRules | crates/aicoder-core/src/model.rs:337-457 | What each kind of block may be, role by role and capability by capability |
| Transcript.MessageRules | crates/aicoder-core/src/model.rs:337-457 | A message is valid on its own iff it was projected, has content, each of its blocks is permitted, and the pictures of a tool message are at most eight beside exactly one result |
| Pairing.PairedIff | crates/aicoder-core/src/model.rs:337-457 | A transcript is paired iff in each unit the calls are distinct and each is answered exactly once by the tool messages after it, and no other message calls or answers; told by blocks, not by marks |
| Transcript.AnsweredCallsIff | crates/aicoder-core/src/model.rs:337-457 | A calling message and the tool messages after it are paired iff call ids are distinct and the results name each of them exactly once, in any order |
| Transcript.PairedConcat | crates/aicoder-core/src/model.rs:337-457 | After a paired conversation, what follows is paired iff it is paired on its own |
| ModelView.ModelMessages | crates/aicoder-core/src/tool_images.rs:121-213 | The reverse pass with its image counter computes the projection: borrowed when nothing needs rewriting, fully rewritten otherwise |
| Projection.ProjectionExact | crates/aicoder-core/src/tool_images.rs:121-213 | The view without a running budget: each message becomes exactly its blocks that are shown, which depends only on the block, its role and the number of showable tool images after it; a transcript that needs no rewriting is borrowed |
| Projection.SaidSurvives | crates/aicoder-core/src/tool_images.rs:121-213 | Everything said survives in order, role by role: all blocks but reasoning and tool images, with results compared without their notices |
| Projection.NoReasoningShown | crates/aicoder-core/src/tool_images.rs:141-158 | Without reasoning history no reasoning of an assistant message is in the view |
| Projection.NoticesLand | crates/aicoder-core/src/tool_images.rs:86-120 | The notices of a tool message join, in order and at most eight in all, the reserved field of its first result, wrapped when it was no object, and change nothing else |
| ModelView.SelectImages | crates/aicoder-core/src/tool_images.rs:161-205 | The newest-first loop over one tool message keeps, counts and notes what the selection function says, with a bounded notice list |
| ModelView.ViewOne | crates/aicoder-core/src/tool_images.rs:141-209 | One step of the pass: role mapping, reasoning removal, skipping of emptied messages, image selection |
| ModelView.NewestImagesShown | crates/aicoder-core/src/tool_images.rs:121-213 | The view shows exactly the last min(4, k) of the k admissible tool images, in transcript order; none without image capability |
| ModelView.ImageSelectionStable | crates/aicoder-core/src/tool_images.rs:121-213 | Projecting a view again shows the same tool images |
| ModelView.ProjectionKeepsReading | crates/aicoder-core/src/tool_images.rs:121-213 | Projection changes no call id and no result id, and not their order |
| ModelView.ViewKeepsOpen | crates/aicoder-core/src/tool_images.rs:121-213 | A paired transcript projects to a paired view, whatever the image budget |
| ModelView.FastPathIff | crates/aicoder-core/src/tool_images.rs:121-138 | When nothing triggers the rewrite, the borrowed view equals the full rewrite iff reasoning history is shown or no assistant message is empty |
| ModelView.FastPathDiffers | crates/aicoder-core/src/tool_images.rs:121-153 | A concrete transcript on which the fast path and the full rewrite differ |
| ToolImages.PreviewsAreInline | crates/aicoder-core/src/tool_images.rs:46-67 | What the constructor of a resolved image accepts is inline, of one of four displayable types, and decodes to at most 256 KiB |
| ToolImages.Materialize | crates/aicoder-core/src/tool_images.rs:217-284 | The in-place pass over the view equals its specification, and is abandoned iff an answer was a cancellation |
| Resolution.PreviewIff | crates/aicoder-core/src/tool_images.rs:46-67 | A picture is accepted iff it is displayable, nonempty canonical base64 and decodes to at most 256 KiB, and it is then that very picture |
| Resolution.MessageExact | crates/aicoder-core/src/tool_images.rs:217-284 | A materialized tool message keeps its blocks in order; each image is the picture accepted for it or is gone, and the first result notes what became of it |
| Resolution.PicturesShown | crates/aicoder-core/src/tool_images.rs:217-284 | The tool images of a materialized view are exactly the accepted answers for its artifacts and its accepted inline pictures, each with its own data, in transcript order |
| ToolImages.SurvivorsResolved | crates/aicoder-core/src/tool_images.rs:217-284 | The tool images of a materialized view are exactly the previews of those that resolved, in order |
| ToolImages.DecodedBytesBounded | crates/aicoder-core/src/tool_images.rs:217-284 | After projection and materialization all tool images are inline and decode to at most one MiB together |
| ToolImages.MaterializedViewValidates | crates/aicoder-core/src/tool_images.rs:217-284 | A view that validates still validates after materialization, whatever the resolver answers |
| Units.MessageUnits | crates/aicoder-core/src/context.rs:433-454 | The nested index loops compute the units: a calling assistant message owns the tool messages after it |
| Units.UnitsTile | crates/aicoder-core/src/context.rs:433-454 | Units follow one another without a gap; each is a calling assistant message with all tool messages after it, or one other message; only system messages are not removable |
| Units.RebuildMessages | crates/aicoder-core/src/context.rs:456-471 | The rebuild loop keeps the kept units in order, with one marker in the place of the first removed one |
| Units.UnitPaired | crates/aicoder-core/src/context.rs:433-454 | A whole unit of a paired transcript leaves no call open |
| Units.RebuildPaired | crates/aicoder-core/src/context.rs:456-471 | Removing any set of units of a paired transcript leaves it paired; the marker never separates a call from its results |
| Units.SystemMessagesKept | crates/aicoder-core/src/context.rs:456-471 | Rebuilding keeps every system message, in order, and adds exactly the marker when something was removed |
| Units.DecimalReads | crates/aicoder-core/src/context.rs:456-471 | The number in the marker is the decimal notation of the number of removed messages |
| Pruning.MarkMandatory | crates/aicoder-core/src/context.rs:234-253 | The reverse pass protects system units, the newest unit and what fits the recent window |
| Pruning.AdditivePass | crates/aicoder-core/src/context.rs:265-280 | The additive first pass stops at the specified number of candidates |
| Pruning.HalvingSearch | crates/aicoder-core/src/context.rs:281-309 | Removing half of the candidates left until a recount fits finds what the specification says, in at most 1 + the number of binary digits of the rest |
| Pruning.PruneCounted | crates/aicoder-core/src/context.rs:213-310 | The whole method equals its specification for every counting function, with at most 1 + Bits(n - 1) recounts for n candidates |
| Pruning.BitsAreLog | crates/aicoder-core/src/context.rs:213-310 | The bound on recounts is logarithmic: Bits(n) is the number of binary digits of n |
| PruneWindow.CandidatesIff | crates/aicoder-core/src/context.rs:234-263 | A unit is a candidate iff it is removable, not the newest such, and the removable units from it on measure more tokens than are to be preserved, as a plain sum |
| PruneWindow.PruneSparesRecent | crates/aicoder-core/src/context.rs:213-310 | Whatever pruning removes lies outside the recent window: the removable units from it to the end measure more than is to be preserved |
| PruneWindow.PruneTries | crates/aicoder-core/src/context.rs:265-309 | The recounts, in order: an additive counter starts with the first number of candidates whose estimate fits, any other with one; then what is left is halved; pruning settles on the first recount that fits |
| PruneWindow.PrunedExactly | crates/aicoder-core/src/context.rs:213-310 | The pruned context message by message: the leading system messages, one marker with the number of removed messages, the system messages up to a cut, and everything from the cut on |
| PruneShape.PruneKeepsSuffix | crates/aicoder-core/src/context.rs:213-310 | What pruning removes is exactly the removable units before some cut, never the newest one: the kept ones are a nonempty suffix |
| PruneShape.PruneMeetsTarget | crates/aicoder-core/src/context.rs:213-310 | A returned context counts what the result reports, which is at most the target |
| PruneShape.PruneKeepsSystem | crates/aicoder-core/src/context.rs:213-310 | Pruning keeps every system message in order and adds at most the marker |
| PruneShape.PruneNeverGivesUp | crates/aicoder-core/src/context.rs:213-310 | Pruning never refuses while deleting every unprotected unit would fit |
| LegacyPruning.CompactEstimated | crates/aicoder-core/src/context.rs:353-423 | The legacy incremental compactor, loop by loop, equals its specification |
| LegacyWindow.LegacyCandidatesIff | crates/aicoder-core/src/context.rs:353-423 | The estimate-driven compactor may remove exactly the units outside the window its estimates measure |
| LegacyWindow.LegacyExact | crates/aicoder-core/src/context.rs:353-423 | For any counter it removes the smallest nonempty number of oldest candidates whose running estimate fits, reports that estimate and the number of removed messages, and refuses iff no number fits |
| LegacyWindow.CompactedExactly | crates/aicoder-core/src/context.rs:353-423 | What it returns, message by message: leading system messages, the marker, system messages up to a cut, everything after the cut |
| LegacyPruning.RecountIsIncremental | crates/aicoder-core/src/context.rs:353-423 | A full recount of the rebuilt transcript is the old total, less what is gone, plus the marker |
| LegacyPruning.ScanIsShortest | crates/aicoder-core/src/context.rs:353-423 | The legacy scan removes the shortest nonempty oldest prefix that fits and reports its exact recount |
| LegacyPruning.ChosenIsShortest | crates/aicoder-core/src/context.rs:213-310 | With an additive counter the counted search removes the shortest nonempty oldest prefix that fits |
| LegacyPruning.CompactorsAgree | crates/aicoder-core/src/context.rs:213-423 | With one additive counter, no projection effects and one target, both compactors return the same messages and counts or both refuse |
| PruneReach.PruningSafeIff | crates/aicoder-core/src/context.rs:213-310 | For a paired, accepted transcript: counted pruning keeps the request accepted for every counter, target and recent window iff every empty assistant message is followed by one that forces the rewrite |
| PruneSafety.OldestRemovalsSafeIff | crates/aicoder-core/src/context.rs:433-471 | For a paired, accepted transcript: every removal of its oldest units is accepted again iff every empty assistant message is followed by one that forces the rewrite |
| PruneSafety.PruningKeepsRequestsValid | crates/aicoder-core/src/context.rs:213-310 | Under that condition counted pruning, end to end, leaves a transcript that is paired, accepted, and meets the condition again |
| PruneSafety.SentAfterPruning | crates/aicoder-core/src/tool_images.rs:217-284 | Under that condition the pruned context, projected and with its tool images resolved, is accepted by validation whatever the resolver answers, and its tool images are inline and decode to at most one MiB together |
| PruneSafety.FastPathExposesEmptyMessage | crates/aicoder-core/src/context.rs:456-471 | A concrete accepted transcript whose pruned form is refused |
| PruneSafety.ViewFewer | crates/aicoder-core/src/tool_images.rs:139-209 | A view that is valid message by message under one image budget stays so under a smaller one |
| RemovalSafety.AnyRemovalAcceptedIff | crates/aicoder-core/src/context.rs:433-471 | For a paired, accepted transcript: every removal of units, newest or oldest, is accepted again iff each unit, shown on its own, is acceptable and no assistant message is empty |
| RemovalSafety.RemovalRevivesImage | crates/aicoder-core/src/context.rs:433-471 | A concrete accepted transcript and removal: deleting the newer of two units brings an old linked picture back, and validation refuses the projected request |
| ContextPolicy.WindowPolicyRefusedIff | crates/aicoder-core/src/context_policy.rs:34-111 | The guard refuses the window policy's own answer iff the compactor target is 0, something is counted, and the window leaves room for input |
| ContextPolicy.WindowRules | crates/aicoder-core/src/context_policy.rs:34-111 | When the window policy keeps, compacts and rejects with each code, in plain sums over window, reservation, target and counts |
| ContextPolicy.AdmitRules | crates/aicoder-core/src/context_policy.rs:34-111 | What the guard lets through: a context that fits beside its output, a positive target in the window with a compactor, a short printable code |
| ContextPolicy.CompactionConverges | crates/aicoder-core/src/context_policy.rs:34-111 | When the policy asks for compaction and pruning succeeds at that target, the policy then keeps the result and the guard admits that |
| Conversation.ValidateResponse | crates/aicoder-core/src/model.rs:516-545 | The reply check, with its mutable set of ids, equals its specification |
| Conversation.ResponseValidIff | crates/aicoder-core/src/model.rs:516-545 | A reply is accepted iff its calls are well formed and distinct and its stop reason fits what it holds |
| Conversation.ShowsIff | crates/aicoder-core/src/model.rs:516-545 | A block shows something iff it is an image or text with a character outside the 25 white-space code points |
| Conversation.AppendExchange | crates/aicoder-core/src/turn_executor.rs:1742-1792 | A valid reply with calls plus one result per call leaves every call answered |
| Conversation.AppendDeliverable | crates/aicoder-core/src/turn_executor.rs:1927-2014 | An applied input leaves every call answered |
| Conversation.PrunedStaysPaired | crates/aicoder-core/src/context.rs:213-310 | Pruning a conversation with every call answered leaves every call answered |
| Limits.ChargesAreConservative | crates/aicoder-core/src/run.rs:171-195 | A charge is never below anything the provider reported, nor below the estimate when nothing whole was reported, and stays a machine word |
| Limits.ChargeExact | crates/aicoder-core/src/run.rs:171-195 | The charge and its estimate mark for every combination of reported figures, in plain sums |
| Limits.FitIsTight | crates/aicoder-core/src/run.rs:449-476 | The longest cut between characters within the room there is: valid, at most three bytes short of it, and no longer valid prefix fits |
| Limits.CutToFit | crates/aicoder-core/src/run.rs:449-476 | The backwards loop finds that cut, and what is kept so far stays a prefix of what was offered |
| Limits.RunLimiter.Stop | crates/aicoder-core/src/run.rs:366-373 | The first violation is recorded unless the run was cancelled already |
| Limits.RunLimiter.Check | crates/aicoder-core/src/run.rs:377-423 | Passes iff nothing has ended the run; otherwise the run is cancelled |
| Limits.RunLimiter.ChargeOutputBytes | crates/aicoder-core/src/run.rs:429-448 | Charges exactly when the run is clear and the bytes fit, and reports it; otherwise the violation is recorded |
| Limits.RunLimiter.RetainText | crates/aicoder-core/src/run.rs:449-476 | What is kept is the longest valid prefix that fits, and nothing after the first cut; retained text is a prefix of offered text; the limit is reached and the violation recorded iff something was cut; at most 3 bytes stay unused |
| Limits.RunLimiter.ReserveTools | crates/aicoder-core/src/run.rs:483-509 | A batch is admitted iff the run is clear and it fits both call limits |
| Limits.RunLimiter.AdmitTool | crates/aicoder-core/src/run.rs:510-528 | One call is admitted and counted iff the run is clear and the limit is not reached |
| Limits.RunLimiter.AdmitBatch | crates/aicoder-core/src/run.rs:483-528 | A batch is admitted iff the run is clear and it fits both call limits, and then every single admission in it succeeds |
| Limits.RunLimiter.AccountTokens | crates/aicoder-core/src/run.rs:537-544 | The charge is added with saturation and marks estimates |
| Utf8.ValidAppend | crates/aicoder-core/src/run.rs:449-476 | Valid texts may be joined |
| Utf8.ValidIff | crates/aicoder-core/src/run.rs:449-476 | Valid texts are exactly the encodings of sequences of Unicode scalar values (RFC 3629, section 3) |
| Utf8.ValidCut | crates/aicoder-core/src/run.rs:449-476 | A valid prefix of a valid text ends at a character boundary, and what follows it is valid |
| Utf8.CutValid | crates/aicoder-core/src/run.rs:449-476 | Cutting valid text at a boundary leaves two valid texts |
| Utf8.BoundaryNear | crates/aicoder-core/src/run.rs:449-476 | In valid text a boundary is never more than three bytes back |
| Control.StepKeeps | crates/aicoder-core/src/control.rs:291-689 | Every locked section keeps exact byte accounts within both limits, unique identifiers, conservation of inputs, and a pending approval only while running |
| Control.RunKeeps | crates/aicoder-core/src/control.rs:291-689 | The same over every interleaving of sections |
| Control.SubmitAccounts | crates/aicoder-core/src/control.rs:291-359 | An accepted submission keeps the accounts exact and within both limits |
| ControlLedger.SubmitIff | crates/aicoder-core/src/control.rs:291-359 | A submission is accepted iff the run takes input, the message is plain user content within its size limit, and all of its bytes fit beside what is queued and reserved |
| ControlLedger.SubmitRecords | crates/aicoder-core/src/control.rs:291-359 | An accepted submission stands at the back of the queue under the next identifier with the size it offered, and nothing else of the accounts changes |
| ControlLedger.ReserveIff | crates/aicoder-core/src/control/input.rs:122-163 | A reservation is made iff the run takes input and its bytes fit, unless a cancellation was seen or the pipeline is bound |
| ControlLedger.CompleteIff | crates/aicoder-core/src/control/input.rs:211-252 | The oldest reservation completes iff its final size fits in the place of what it reserved, within both limits on the message |
| ControlLedger.CompleteRecords | crates/aicoder-core/src/control/input.rs:211-252 | A completed reservation stands at the back of the queue under its own identifier with its final size, and gives back what it reserved |
| ControlLedger.OfferedSizes | crates/aicoder-core/src/control.rs:291-568 | Over every run the sizes offered by accepted and not yet applied inputs, followed event by event, sum to the queued bytes, those of reservations to the reserved bytes, together within the limits on bytes and on number |
| ControlLedger.StatusStep | crates/aicoder-core/src/control.rs:360-689 | What each section makes of the status and of the cancellation |
| ControlLedger.RevisionTells | crates/aicoder-core/src/control.rs:291-689 | Every change but the parent's cancellation raises the revision by one |
| ControlLedger.ApprovalStep | crates/aicoder-core/src/control.rs:421-630 | What each section makes of the pending approval and of its waiter's answer |
| Control.CompleteIdentities | crates/aicoder-core/src/control/input.rs:165-262 | A completed reservation keeps its identifier, and no identifier is ever shared |
| Control.ReleaseIdentities | crates/aicoder-core/src/control/input.rs:33-41 | A dropped reservation frees its bytes and its place without reusing its identifier |
| ControlRuns.ChosenIsHead | crates/aicoder-core/src/control.rs:502-531 | What `next` or `next_context` returns is the oldest queued input of its kind |
| ControlRuns.FollowUpsWaitForSteering | crates/aicoder-core/src/control.rs:502-531 | A follow-up is chosen only when no steering is queued; nothing is chosen and no context deferred iff the queue is empty |
| ControlRuns.RunFifo | crates/aicoder-core/src/control.rs:291-568 | Over every run, applied inputs followed by queued ones are the accepted ones, per kind in order of acceptance |
| ControlRuns.QueueRisesIff | crates/aicoder-core/src/control.rs:291-568 | A step takes an increasing queue out of identifier order iff it completes a reservation behind a queued input with a later identifier |
| ControlRuns.QueueAlwaysRisesIff | crates/aicoder-core/src/control.rs:291-568 | Over a run, identifiers increase along the queue in every state iff no step of the run completes a reservation in that way |
| ControlRuns.SubmitRisksOvertakingIff | crates/aicoder-core/src/control.rs:291-359 | After an accepted synchronous submission some next step can take the queue out of order iff a reservation is outstanding |
| ControlRuns.AcceptedRisesIff | crates/aicoder-core/src/control/input.rs:165-262 | A step takes the accepted inputs of a kind out of identifier order iff it completes a reservation behind an accepted input of that kind with a later identifier |
| ControlRuns.AcceptedAlwaysRisesIff | crates/aicoder-core/src/control.rs:291-568 | Over a run, the accepted identifiers of a kind increase in every state iff no step of the run completes a reservation in that way |
| ControlRuns.AppliedAlwaysRisesIff | crates/aicoder-core/src/control.rs:502-568 | Over a run of the executor's discipline, the applied identifiers of a kind increase in every state iff no reservation completed behind an accepted input of that kind with a later identifier and was then applied; hence if none so completes, and only then once the kind is drained |
| ControlRuns.AppliedOutOfOrder | crates/aicoder-core/src/control.rs:502-568 | A concrete run in which the executor takes the oldest steering input each time and applies identifier 2 before identifier 1 |
| ControlRuns.ReservationsOvertaken | crates/aicoder-core/src/control/input.rs:122-262 | A concrete run in which the queue is not in identifier order |
| ControlRuns.AppliedInOrder | crates/aicoder-core/src/control.rs:557-568 | In a first-in-first-out state the applied identifiers of a kind increase if the accepted ones do, and only then once everything of that kind is applied |
| ControlRuns.ClosedForever | crates/aicoder-core/src/control.rs:360-373 | A closed run never reopens, accepts nothing more, and an empty queue stays empty |
| ControlRuns.NextClosesEmpty | crates/aicoder-core/src/control.rs:502-531 | `next` closes a run it searched for follow-ups iff its queue is empty |
| ControlRuns.WaiterStep | crates/aicoder-core/src/control.rs:421-449 | One step tells an approval's waiter a decision only if it is a valid response naming it; every closing step tells it Deny |
| ControlRuns.AnswersAreFinal | crates/aicoder-core/src/control.rs:583-630 | Once a waiter has an answer, nothing changes it |
| ControlRuns.AllowedOnlyByResponse | crates/aicoder-core/src/control.rs:421-449 | A permission in any run comes from a response naming that very approval while it was pending in a running, uncancelled run |
| ControlObject.ControlState.Submit | crates/aicoder-core/src/control.rs:291-359 | One locked section: the verdict and the whole new state, in the order of the source's checks |
| ControlObject.ControlState.Reserve | crates/aicoder-core/src/control/input.rs:122-163 | A reservation takes its identifier and its bytes, or says why not; a cancellation counts only when it was there before the lock |
| ControlObject.ControlState.Complete | crates/aicoder-core/src/control/input.rs:211-252 | The oldest reservation becomes a queued input with its final size, within the limits on the message, on the whole and on the queue |
| ControlObject.ControlState.Release | crates/aicoder-core/src/control/input.rs:33-41 | A dropped ticket gives its bytes back |
| ControlObject.ControlState.Cancel | crates/aicoder-core/src/control.rs:360-373 | Closes an open run, cancels its token and drops the pending approval |
| ControlObject.ControlState.RespondApproval | crates/aicoder-core/src/control.rs:421-449 | Answers exactly the pending approval with that id, or says why not; an approval nobody waits for is taken off and reported as unknown |
| ControlObject.ControlState.Start | crates/aicoder-core/src/control.rs:487-496 | Only a waiting run starts |
| ControlObject.ControlState.Next | crates/aicoder-core/src/control.rs:502-531 | The chosen input and, in the same section, the closing of a run with nothing left |
| ControlObject.ControlState.NextContext | crates/aicoder-core/src/control/custom.rs:218-226 | The oldest deferred context input |
| ControlObject.ControlState.MarkApplied | crates/aicoder-core/src/control.rs:557-568 | The input leaves the queue with its bytes and joins the applied ones |
| ControlObject.ControlState.Seal | crates/aicoder-core/src/control.rs:569-579 | Closes and reports the whole queue |
| ControlObject.ControlState.Finish | crates/aicoder-core/src/control.rs:633-638 | Finishes and drops the pending approval |
| ControlObject.ControlState.Drop | crates/aicoder-core/src/control.rs:654-669 | Dropping an unfinished execution side cancels and closes the run |
| ControlObject.ControlState.Approve | crates/aicoder-core/src/control.rs:583-630 | At most one approval is pending, only while running, under a fresh identifier |
| ControlObject.ControlState.Cleanup | crates/aicoder-core/src/control.rs:670-690 | A waiter that goes away removes only its own approval |
| ControlSound.StepSound | crates/aicoder-core/src/control.rs:291-689 | All invariants together survive every step of hosts and of a disciplined executor |
| ControlSound.ElsewhereStep | crates/aicoder-core/src/control.rs:291-449 | Other threads only add to the back of an open queue and never reopen a closed one |
| ControlSound.AppliedSound | crates/aicoder-core/src/control.rs:557-568 | Applying the oldest input of a kind removes exactly that input and keeps every invariant |
| ControlSound.AppliedBounded | crates/aicoder-core/src/control.rs:557-568 | A run applies at most as many inputs as identifiers were handed out |
| ControlSound.EmptyCatchesUp | crates/aicoder-core/src/control.rs:502-568 | With none of a kind left in the queue, everything of that kind accepted so far is applied, in order |
| ControlSound.CountCatchesUp | crates/aicoder-core/src/control.rs:502-568 | After as many inputs of a kind as the queue can hold, everything of that kind queued at first is applied, in order |
| Lifecycle.AgentRunStateMachine.Transition | crates/aicoder-core/src/state.rs:118-180 | A legal request is carried out and recorded; an illegal one changes nothing |
| Lifecycle.TransitionRules | crates/aicoder-core/src/state.rs:143-180 | Which states may come before each state: terminals are left by nothing, rounds grow by one, completion only after verification, tools only with a call |
| Lifecycle.RoundsLegal | crates/aicoder-core/src/state.rs:143-180 | A run that goes through its rounds in the executor's shape never asks for an illegal transition, and makes at most 1 + 4 per round |
| Lifecycle.TerminalLegal | crates/aicoder-core/src/state.rs:143-180 | Every terminal state an outcome can ask for is legal from where the last round stopped |
| Executor.Executor.CommitInput | crates/aicoder-core/src/turn_executor.rs:1927-2014 | An input is applied to queue history and conversation together, after the journal accepted it, or to neither |
| Executor.Executor.ApplyInputs | crates/aicoder-core/src/turn_executor.rs:1875-1925 | Before the model all steering accepted so far is applied, in order; after a completion at most one follow-up, first, and only if another round is left; an offered input is applied unless the run ends |
| Executor.Executor.FlushContext | crates/aicoder-core/src/turn_executor/custom_delivery.rs:12-60 | All deferred context accepted so far is applied, in order and at most 256 inputs of it, or something ends the run |
| Executor.Executor.Drain | crates/aicoder-core/src/turn_executor.rs:1623-1680 | The closing loop terminates and ends with a closed empty queue, another round, or an early stop |
| Executor.Executor.Settle | crates/aicoder-core/src/turn_executor.rs:1571-1688 | After an accepted answer: another round, only because steering or a follow-up was applied and with at most one new follow-up, or a run closed to submissions with an empty queue, or an early stop, under any interference |
| Executor.Executor.EnsureCapacity | crates/aicoder-core/src/turn_executor.rs:2048-2063 | Passing means the counted input leaves room under the token budget |
| Executor.Executor.Clamp | crates/aicoder-core/src/turn_executor.rs:1328-1344 | Under a budget the granted output is at least 1, fits what is left, is the least of what is left and the applicable limit, and the 32-bit cast loses nothing; it counts as clamped iff the budget cut it |
| Executor.Executor.Charge | crates/aicoder-core/src/run.rs:537-544 | Each provider call is charged once, with what its reported usage comes to, and recorded; the tokens used are the sum of all charges, and while charges stay within estimate plus grant the token budget is never exceeded |
| Executor.Executor.Converse | crates/aicoder-core/src/turn_executor.rs:1301-1470 | One provider call is recorded at most once, sent only while nothing has ended the run, keeps the token ledger, and yields only replies that pass validation; a valid reply is not lost unless the run ended |
| Executor.Executor.TakeInputs | crates/aicoder-core/src/turn_executor.rs:738-830 | Before a request all steering accepted so far is applied, and after the first round all deferred context too, or the run stops for a reason that is there |
| Executor.Executor.Compact | crates/aicoder-core/src/turn_executor.rs:864-1250 | The conversation stays, or becomes its pruned form for the target the policy chose; it passes only if that is within the target and smaller than before; calls stay answered and the system messages in front stay in place |
| Executor.Executor.PruneContext | crates/aicoder-core/src/turn_executor.rs:945-957 | The checks on a compaction admit it iff the context was over the target and pruning can meet it; otherwise the conversation stays as it was |
| Conversation.CompactionAdmittedIff | crates/aicoder-core/src/turn_executor.rs:2074-2085 | What pruning returns is always on target with the system messages in front unchanged, so it is admitted iff there was something to prune |
| Executor.Executor.CallTools | crates/aicoder-core/src/turn_executor.rs:1742-1792 | The calls are admitted as one batch and answered one by one in order; then every call of the conversation is answered and the round is complete |
| Executor.Executor.Answer | crates/aicoder-core/src/turn_executor.rs:1495-1525 | A reply without calls joins the conversation; it reaches verification iff it is complete and no limit ended the run, and any other reply ends the run with the model's refusal, or the budget's when the budget cut it; the run goes on only after a rejection or with a newly applied input |
| Executor.Executor.Incomplete | crates/aicoder-core/src/turn_executor.rs:1496-1510 | A cut-off reply is the budget's fault iff the budget had cut what was asked for; otherwise the model's |
| Executor.Executor.Object | crates/aicoder-core/src/turn_executor.rs:1689-1722 | A verifier's objection joins the conversation as a user message |
| Executor.Executor.UseTools | crates/aicoder-core/src/turn_executor.rs:1742-1828 | A reply with calls joins the conversation with its answers, then all deferred context follows |
| Executor.Executor.Verify | crates/aicoder-core/src/turn_executor.rs:1513-1738 | Deferred context is applied first; a rejected answer adds its feedback and goes on; an accepted one settles, or goes on only with newly applied input; nothing said before is lost |
| Executor.Executor.RunRound | crates/aicoder-core/src/turn_executor.rs:738-1828 | One round keeps all run invariants and ends with every call answered and with all steering and deferred context accepted before it applied, or stops the run for a reason that is there; an answer that ends the run is complete, shows something, and was accepted by the verifier |
| Executor.Executor.RunInner | crates/aicoder-core/src/turn_executor.rs:632-1838 | Every round begins with all calls answered and with what was accepted before the previous one applied; when an answer is returned, it is the accepted one, and the run is closed to submissions with an empty queue |
| Executor.Executor.Classify | crates/aicoder-core/src/turn_executor.rs:413-509 | A failure before any limit is reported as it is; otherwise a budget violation wins over a cancellation, and either over what the loop returned |
| Executor.Executor.FinishScope | crates/aicoder-core/src/turn_executor.rs:568-601 | The terminal transition is always legal, so the fallback is never taken; the trace is legal with at most 4 * max_rounds + 2 transitions |
| Executor.Executor.CloseControl | crates/aicoder-core/src/turn_executor.rs:510-580 | Sealing reports exactly the accepted inputs that were not applied |
| Executor.Executor.Run | crates/aicoder-core/src/turn_executor.rs:413-601 | A whole run under any interleaving: closed at the end, identifiers distinct, accepted = applied plus left over (nothing left when it completes), FIFO per kind, calls answered and earlier inputs applied at every round start, system messages in front kept, legal short trace, call and token budgets kept with every request billed; it completes only with a complete, visible reply that the verifier accepted, and stops short only for the reason it gives |
| Executor.Launch | crates/aicoder-core/src/turn_executor.rs:413-601 | The same for a run put together by the constructors, for every configuration they accept |
| Inbox.CustomInbox.Push | crates/aicoder-core/src/custom_inbox.rs:79-108 | Accepted iff well formed, at most 2 MiB - 4096 bytes, with fewer than 32 entries and at most 4 MiB in all; then appended under the next id; each refusal says which |
| Inbox.CustomInbox.Discard | crates/aicoder-core/src/custom_inbox.rs:63-78 | Withdraws exactly the named unclaimed message; a claimed one is refused |
| Inbox.CustomInbox.Claim | crates/aicoder-core/src/custom_inbox.rs:109-132 | Refused iff the session has an open claim; otherwise takes the session's messages in order, leaving other claims alone |
| Inbox.CustomClaim.Commit | crates/aicoder-core/src/custom_inbox.rs:142-156 | Exactly the claimed messages leave the queue as delivered; everything else stays |
| Inbox.CustomClaim.Drop | crates/aicoder-core/src/custom_inbox.rs:157-168 | An uncommitted claim gives its messages back; a committed one changes nothing |
| Inbox.DropUndoesClaim | crates/aicoder-core/src/custom_inbox.rs:109-168 | Claiming and giving back leaves the queue exactly as it was |
| Inbox.CommitTakesSession | crates/aicoder-core/src/custom_inbox.rs:109-156 | A commit takes exactly the session's messages of the claim, in order |
| InboxQueue.SessionExact | crates/aicoder-core/src/custom_inbox.rs:109-132 | A claim takes exactly the session's entries and leaves exactly the others, both in the order of the queue |
| InboxQueue.CommitExact | crates/aicoder-core/src/custom_inbox.rs:142-156 | A commit takes exactly the entries its claim marked and leaves exactly the others, both in order |
| InboxQueue.RisingUnique | crates/aicoder-core/src/custom_inbox.rs:63-168 | A queue in identifier order is determined by its entries: the two descriptions above fix what is taken and what stays |
| InboxQueue.MarksExact | crates/aicoder-core/src/custom_inbox.rs:109-168 | Claiming and giving back change nothing but the mark of the entries concerned, and move none |
| Inbox.LaterSurvive | crates/aicoder-core/src/custom_inbox.rs:142-156 | Messages queued during a claim survive its commit |
| Inbox.ExactlyOnePlace | crates/aicoder-core/src/custom_inbox.rs:63-168 | Every accepted message is pending, delivered or withdrawn, exactly one of them and once |
| Inbox.PushKeeps | crates/aicoder-core/src/custom_inbox.rs:79-108 | Bytes are the exact sum, at most 32 entries and 4 MiB, ids in order |
| Inbox.CommitKeeps | crates/aicoder-core/src/custom_inbox.rs:142-156 | A commit keeps the accounts exact and no other claim changes |
| Inbox.Agent.StartTurn | crates/aicoder-core/src/agent.rs:714-784 | Whatever hosts and turns of other sessions do meanwhile, a turn logs the session's pending messages in order and once, or logs none and leaves every one of them in the queue as it was; the messages it was handed are those, in order |
| Cancellation.ReasonNeverChanges | crates/aicoder-core/src/cancellation.rs:85-135 | Two answers a cancelled context gives to `reason` are equal, under every interleaving of lock, store, token and child steps anywhere in the tree |
| Cancellation.ReasonIff | crates/aicoder-core/src/cancellation.rs:101-111 | A context reports the reason of the nearest context at or above it that has one, and the default iff none has |
| Cancellation.FirstReasonWins | crates/aicoder-core/src/cancellation.rs:85-95 | The first call that finds a context neither cancelled nor given a reason stores its reason, whatever happens between its lock and its store; any other call stores nothing |
| Cancellation.ReasonWasOffered | crates/aicoder-core/src/cancellation.rs:85-95 | A reason is only ever what some call on that very context offered |
| Cancellation.ReadersSeeSettled | crates/aicoder-core/src/cancellation.rs:101-111 | A reader that gets through the locks of a cancelled context gets the settled reason |
| Cancellation.SettledForever | crates/aicoder-core/src/cancellation.rs:85-111 | A settled reason survives every further step |
| Cancellation.CancelledIffFiredAbove | crates/aicoder-core/src/cancellation.rs:85-126 | In every reachable tree a context is cancelled iff a token at or above it was fired |
| Cancellation.ChildrenDoNotCancelParents | crates/aicoder-core/src/cancellation.rs:113-126 | No run that fires only tokens below or beside a context cancels it |
| Cancellation.Contexts.Cancel | crates/aicoder-core/src/cancellation.rs:85-95 | The first reason is kept, the context ends cancelled, as lock, store and token steps in order |
| Cancellation.Contexts.NewChild | crates/aicoder-core/src/cancellation.rs:114-126 | A child starts without a reason, inherits cancellation, and changes no other context |
| Cancellation.Contexts.Reason | crates/aicoder-core/src/cancellation.rs:101-111 | The walk up the parents returns the first reason, or the default text |
| Lines.LaterBytesChangeNothing | crates/aicoder-cli/src/input.rs:46-72 | Bytes that arrive later never change an answer that is already determined |
| Lines.NextExact | crates/aicoder-cli/src/input.rs:46-72 | The answer is the first line, to its newline or the end of the input, iff it is at most one MiB of valid UTF-8; the two errors and the end are told exactly, and what is left is the rest |
| Lines.StreamConcat | crates/aicoder-cli/src/input.rs:46-72 | The stream is the bytes of the chunks in the order of the reads, each once |
| Lines.LinesRebuildStream | crates/aicoder-cli/src/input.rs:46-72 | The lines returned so far, joined, are exactly the consumed part of the stream |
| Lines.Reader.NextLine | crates/aicoder-cli/src/input.rs:46-72 | The answer and the bytes left depend only on the stream, never on how it was chunked; the buffer stays within 1 MiB + 4096 bytes |
| Lines.Reader.All | crates/aicoder-cli/src/input.rs:73-83 | Returns the whole input iff no read faults and it is at most 1 MiB of valid UTF-8; a fault is reported only when there is one, and any other error only when the input is at fault |

## Left out

- The wording of the removal marker: the marker is a system message that carries only the number of removed messages.
- Parsing of MIME types: a declared media type is its classification together with an opaque spelling.
- The parts of request validation that are not about messages: temperature, stop sequences, tools, schemas, options.
- JSON: tool arguments and outputs are opaque values, except the reserved notice field; encoded sizes are given numbers.
- Timeouts, clocks and durations: they appear only as a choice to stop. Event delivery and tracing are left out.
- Boundary hooks, request hooks, message finalizers, model-written summaries and checkpoints of compactions: the executor is modelled without extensions, so the context between rounds changes only by replies, tool results, inputs, feedback and deterministic pruning.
- Executor.Executor.Converse: the projection, materialization and validation of the request it sends are not repeated inside the loop; what they make of a conversation, pruned or not, is proved in `PruneSafety.SentAfterPruning` and `ToolImages.MaterializedViewValidates`.
- Executor.Executor.CallTools: the dispatcher's own admission of single calls and its approvals are left out; approvals appear only as steps of other threads.
- Auxiliary model calls and their reserved tokens: nothing is reserved.
- The per-run cap on custom messages (256 messages, 8 MiB) and the binding of input pipelines: a submission refused for those reasons is a released reservation.
- ControlObject.ControlState.Reserve: the sizes refused before the lock are left out; the message and its receipt are one number of bytes.
- ControlObject.ControlState.Complete: a prepared input that an extension handled itself is left out; it changes nothing and its reservation is then given back, which is a step of its own.
- Executor.Executor.CommitInput: message finalizers, input receipts and what they charge to the byte budget are left out; validation and journal are choices to go on or to stop.
- The map of reservations is a sequence ordered by identifier.
- Controls of a run without a control handle, and several runs at once: one controlled run is modelled.
- Inbox.Agent.StartTurn: the other entries of the session append, finalizers and leases are left out; the append is one step that succeeds or fails. A claim of another turn is its token and its identifiers.
- Cancellation.Contexts.Cancel: the method is the uncontended call; contention is in the theorems about schedules.
- Lines.Reader.NextLine: signals and waiting between reads are left out; a read fault is an error that leaves the stream as it was.
- HTTP providers, credentials, session storage, the terminal and web front ends, the script engine and the evaluation reports.
