# 107pilot verification model

This project models the parts of 107pilot that have to be right when something goes wrong: a page that
arrives late, a writer that interferes, a process that dies half-way, an upload that is retried. Each
module follows one piece of the repository; where the repository's code changes state step by step, the
model is a method with loops or a class, proved against a function, and the promises are proved about
that function. `dafny verify dfyconfig.toml` checks everything.

- **Event log** (`EventLog`, `EventStream`): the server appends numbered events and answers polls page by
  page; the web panel merges whatever arrives into its list. Pages may come late, twice, out of order, or
  for a session that is no longer open. The paging loop of the heat-diffusion smoke reads the same log
  while it grows.
- **Event groups** (`EventGroups`, `EventGroupFacts`, `EventGroupFields`): the one-pass grouping of events into assistant, tool
  and lifecycle groups, against a definition that needs no pass: every event has a leader, a group is what
  one leader leads. A tool event may rejoin an old group without closing the current assistant group, so
  groups interleave in the input.
- **Profile files** (`SimpleYaml`, `YamlText`, `YamlTermination`, `YamlRoundTrip`): the indentation parser behind the
  fidelity report, in the three mutually recursive loops it has. A loop turn that leaves its state as it
  was is the outcome `Hangs`.
- **Publication** (`Relay`, `Publisher`, `PublisherLoop`, `PublisherRecovery`, `PublisherApproval`): the relay's file scripts, and
  the publisher that drives them, once as the loop it is and once as a machine in which every relay call
  and every store write is one step. A crash keeps the file tree and the two store records and loses the
  rest.
- **Uploads** (`UploadService`, `ParallelUpload`): the offset-based upload service and the parallel driver
  that splits a file over partial uploads, one worker each. The service follows the tus resumable upload
  protocol 1.0.0 except where the code differs: an offset before the end truncates and rewrites instead
  of being refused.
- **Redaction** (`Redaction`, `Summaries`): what a platform probe's report keeps of an endpoint's answer.
- **Codecs and resolvers** (`ArrayRanges`, `UnifiedDiff`, `Walltime`, `Resources`).

`Text` and `Json` hold the strings, numerals and JSON values they share.

## Findings

Where the code does something other than its documentation or design suggests, the model follows the code.

- *Hanging profiles.* The item loop at `scripts/report_sim_behavior_fidelity.py:612-616` does not advance on
  a line that is deeper than the item but not two deeper. It is not enough that every deeper line is
  exactly two deeper and follows an opening line: after a list of scalars inside a dict item, a key at
  the list's own depth hangs the parser (`PlainNestingCanHang`). The exact class is `HangsExactly`. The
  bare-dash branch at line 600 is never taken, because lines are stripped (`DashHasContent`).
- *Stranded change sets.* A crash between the two final store writes of `publish` leaves the publication
  published and its change set publishing; later calls, `reconcile` included, return at once and
  `verify_published_snapshot` refuses for ever. A conflict saved before its change set strands it just so.
  It can happen to exactly the publications that an uninterrupted call would publish or find in conflict
  (`StrandedExactly`); which runs it happened to is said by `ChangeSetRecovers`.
- *Summaries are not blind to secrets.* A summary adds `<key>_count` beside every list, so that it shows
  whether the value under a secret name was a list (`CountLeaks`, exact condition in `SummariesHide`).
- *Tool keys.* The key of a tool group joins turn and call id with a colon. Two turns can end in one group
  if and only if one turn id continues the other after a colon (`TurnsMergeExactly`), and within a turn a
  call named `event-7` joins event 7 if that has no call id (`FallbackMerges`). The backend produces
  neither: the store mints turn ids of one length without a colon (`src/pilot107/agent/store.py:176, 299`),
  and its protocol requires a call id in every tool event (`src/pilot107/agent/protocol.py:605-640`). The
  panel itself assumes nothing of the kind.
- *Diff lines.* Added lines whose own text starts with `++` are dropped, and a line or name with a form feed,
  a carriage return or another character at which `splitlines` ends a line is cut there (`ReadsBack`, exact);
  a created file without lines reads back as one with an empty line (`LinesRecovered`).
- *Failed writes.* When a block fails while an upload is completed, the session fails and the target keeps
  the blocks written before (`CompletePromise`).
- *Repeated partition names.* With a repeated partition name the resource default can be empty although a
  pair is supported (`RepeatedNameHides`, exact condition in `MissesExactly`).

## Model

| member | source | states |
|---|---|---|
| EventMerge.MergeAgentEvents | apps/web/src/AgentSessionPanel.tsx:344-357 | the two map-filling loops and the sort: ascending, and under every id the last held event, else the first incoming one |
| EventMerge.MergeMeaning | apps/web/src/AgentSessionPanel.tsx:344-357 | for any lists, duplicates and foreign sessions included: a held event is never replaced, nothing of another session enters |
| EventMerge.MergeExtends | apps/web/src/AgentSessionPanel.tsx:126-151 | a page that starts at or before the end of the held prefix gives the longer of the two prefixes |
| EventMerge.MergePrefixExactly | apps/web/src/AgentSessionPanel.tsx:126-151 | a non-empty page leaves a prefix of the log if and only if it does not start past the held one |
| EventStream.PageIsRun | src/pilot107/agent/store.py:747-772 | a server page is the contiguous run of the session's log just past the cursor |
| EventStream.StepKeepsInv | apps/web/src/AgentSessionPanel.tsx:126-151 | append, poll, answer, delivery of any page ever produced, and reopening keep the list a prefix of the log and every page a run of it |
| EventStream.ClientHoldsPrefix | apps/web/src/AgentSessionPanel.tsx:126-151 | in every run the list is a gap-free, duplicate-free, strictly increasing prefix of its session's log |
| EventStream.ClientNeverForgets | apps/web/src/AgentSessionPanel.tsx:126-151 | until the session is reopened no shown event is withdrawn or moved |
| EventStream.PollsCatchUp | apps/web/src/AgentSessionPanel.tsx:126-151 | from any state that any run reaches, once the log is quiet: as many rounds of poll, answer and delivery as there are missing events show all of the log, whatever the page size |
| EventStream.RoundAdvances | apps/web/src/AgentSessionPanel.tsx:126-151 | such a round is enabled in every reachable state, and takes the list a full page on or to the end of the log |
| EventStream.AllEvents | scripts/smoke-vm-heat-diffusion-agent.py:166-183 | the paging loop, for any server on which it ends, returns or raises what its requests come to |
| EventStream.BoundedEnds | scripts/smoke-vm-heat-diffusion-agent.py:180-183 | because the cursor must grow, it ends on any server whose cursors are bounded, returning or raising |
| EventStream.ReadsPages | scripts/smoke-vm-heat-diffusion-agent.py:166-183 | against a log that grows between requests, while each request leaves a full page, it has read exactly the first pages of the log |
| EventStream.LoopEndsExactly | scripts/smoke-vm-heat-diffusion-agent.py:166-183 | against such a log it ends if and only if at some request `k`, counted from zero, the session's log holds at most `k + 1` pages |
| EventStream.AllEventsReadsLog | scripts/smoke-vm-heat-diffusion-agent.py:166-183 | whenever it ends it has not raised, and it returns exactly the session's log as it stood at its last request |
| Leading.LeaderFits | apps/web/src/AgentSessionPanel.tsx:366-428 | every event is of its leader's sort, and a leader leads itself |
| Leading.MembersAre | apps/web/src/AgentSessionPanel.tsx:366-428 | a group holds exactly the events its leader leads, once each and in input order |
| Leading.IndexFindsLeader | apps/web/src/AgentSessionPanel.tsx:394-420 | a tool key is new exactly when its event opens a group; otherwise the index map points at the group of the key's first event |
| Leading.IndexGrows | apps/web/src/AgentSessionPanel.tsx:394-420 | the map keeps pointing there after every event |
| EventGroups.GroupOne | apps/web/src/AgentSessionPanel.tsx:370-428 | the loop body: one event turns the groups of the events so far, and the map, into those of one more |
| EventGroups.GroupAgentEvents | apps/web/src/AgentSessionPanel.tsx:366-433 | the whole pass and the filter compute the groups defined by leaders |
| EventGroups.DeltaStep | apps/web/src/AgentSessionPanel.tsx:371-393 | a delta extends the newest group exactly when that is an assistant group of its turn, else opens one |
| EventGroupFacts.EventsPartitioned | apps/web/src/AgentSessionPanel.tsx:366-428 | before the filter every input position lies in exactly one group, once |
| EventGroupFacts.GroupsOrdered | apps/web/src/AgentSessionPanel.tsx:366-428 | groups are ordered by first event, and events inside a group keep their order |
| EventGroupFacts.OneMoreEvent | apps/web/src/AgentSessionPanel.tsx:366-428 | one more event appends one group or extends exactly one, all others unchanged |
| EventGroupFacts.TextConserved | apps/web/src/AgentSessionPanel.tsx:371-393 | unfiltered assistant texts in group order are, in input order, the strings that the message deltas have under "delta" |
| EventGroupFacts.ShownIsComplete | apps/web/src/AgentSessionPanel.tsx:430-432 | exactly the groups that are not assistant groups of blanks are shown, unchanged and in order; the shown text is the streamed one up to blanks |
| EventGroupFacts.EventTextNotBlank | apps/web/src/AgentSessionPanel.tsx:435-467 | the text of an event is never blank |
| EventGroupFacts.ToolTextExactly | apps/web/src/AgentSessionPanel.tsx:524-530 | a tool group shows the text of its newest event that has one, and none exactly when none has |
| EventGroupFacts.ToolCallsShareGroup | apps/web/src/AgentSessionPanel.tsx:395-420 | within a turn two tool events share a group exactly when they are of the same call, an event without a call id being its own; across turns never unless the turn ids clash |
| EventGroupFacts.TurnsMergeExactly | apps/web/src/AgentSessionPanel.tsx:396-401 | events of two turns can end in one group if and only if one turn id continues the other after a colon |
| EventGroupFacts.MintedTurnsApart | src/pilot107/agent/store.py:299 | turn ids of one length, as the store mints them, never clash |
| EventGroupFacts.KeysDistinct | apps/web/src/AgentSessionPanel.tsx:386-424 | the groups of a merged list carry pairwise different keys |
| EventGroupFacts.FallbackMerges | apps/web/src/AgentSessionPanel.tsx:396-399 | in any turn, an event without a call id and a call named like its fallback end in one group |
| EventGroupFields.DeltaExactly | apps/web/src/AgentSessionPanel.tsx:371-393 | on the fields alone: a message delta adds its string to the newest group if that is an assistant group of its turn, else opens an assistant group, with this key |
| EventGroupFields.ToolExactly | apps/web/src/AgentSessionPanel.tsx:395-420 | an event whose kind starts with the tool prefix joins the tool group of its key, wherever that stands, else opens one |
| EventGroupFields.LoneExactly | apps/web/src/AgentSessionPanel.tsx:423-428 | any other event opens a group of its own, a failure exactly for a failed turn |
| EventGroupFields.EventTextExactly | apps/web/src/AgentSessionPanel.tsx:435-467 | the payload field each text comes from: the first string of delta, content, progress, result; if there is none or it is blank, the first text along the paths of the error message, the result's error message, and the approval summaries four deep |
| SimpleYaml.LoadLines | scripts/report_sim_behavior_fidelity.py:560-565 | the line reader: blank and comment lines dropped, the rest stripped with their indent |
| SimpleYaml.DashHasContent | scripts/report_sim_behavior_fidelity.py:599-603 | a kept line that starts as an item has content after the dash |
| SimpleYaml.RunBlock | scripts/report_sim_behavior_fidelity.py:586-591 | `parse_block` against its specification |
| SimpleYaml.RunList | scripts/report_sim_behavior_fidelity.py:593-621 | the list loop against its specification |
| SimpleYaml.RunRest | scripts/report_sim_behavior_fidelity.py:612-616 | the loop that adds deeper lines to an item, hanging turns included |
| SimpleYaml.RunDict | scripts/report_sim_behavior_fidelity.py:623-635 | the dict loop against its specification |
| SimpleYaml.LoadSimpleYaml | scripts/report_sim_behavior_fidelity.py:559-640 | the whole loader on the text of a file |
| SimpleYaml.StuckForEver | scripts/report_sim_behavior_fidelity.py:612-616 | what `Hangs` stands for: any number of loop turns leaves index and item unchanged |
| YamlText.ScalarExactly | scripts/report_sim_behavior_fidelity.py:567-584 | on characters: the three keywords; bracketed texts and texts between equal quotes go to the literal evaluator, whose refusal is an error; anything else is an integer when it reads as one, and else itself |
| YamlText.IntExactly | scripts/report_sim_behavior_fidelity.py:581-584 | an ASCII text is an integer exactly when it is a sign or none and groups of digits with single underscores between, of just that value |
| YamlText.EveryTextStrips | scripts/report_sim_behavior_fidelity.py:568 | every text has the stripped part that `ScalarExactly` speaks of |
| YamlText.LineExactly | scripts/report_sim_behavior_fidelity.py:561-565 | blank lines and comments leave no trace wherever they stand; any other line counts with its leading spaces and its stripped text |
| YamlText.SplitLinesExactly | scripts/report_sim_behavior_fidelity.py:561 | each break character ends a line, a carriage return together with a line feed after it, and the last break opens no line |
| YamlText.PutExactly | scripts/report_sim_behavior_fidelity.py:630-634 | a key given twice has the later value at the earlier place |
| YamlText.UpdateExactly | scripts/report_sim_behavior_fidelity.py:616 | the deeper lines of an item win over its own keys, which keep their places |
| YamlTermination.HangsExactly | scripts/report_sim_behavior_fidelity.py:586-640 | the parser runs for ever if and only if the first line that is not sound is stray: under a dict item, not two deeper than it, opening no block and with no sibling to stand beside |
| YamlTermination.SucceedsExactly | scripts/report_sim_behavior_fidelity.py:586-640 | it returns a profile if and only if all lines are sound, no list is misplaced, and the first line starts a dict |
| YamlTermination.BlockAdvances | scripts/report_sim_behavior_fidelity.py:586-591 | `parse_block` advances exactly when the current line stands at the depth asked for |
| YamlTermination.AcceptedNeverHangs | scripts/report_sim_behavior_fidelity.py:593-635 | no document whose every line is accepted where it stands hangs the parser |
| YamlTermination.NoItemsNeverHangs | scripts/report_sim_behavior_fidelity.py:593-635 | nor one without dict items in its lists |
| YamlTermination.PlainNestingCanHang | scripts/report_sim_behavior_fidelity.py:612-616 | a document in which every deeper line is two deeper and follows an opening line, and which hangs |
| YamlRoundTrip.ParsePrinted | scripts/report_sim_behavior_fidelity.py:586-640 | parsing the printed lines of any printable value, whose keys and texts hold no line break, returns it and uses every line |
| YamlRoundTrip.LoadPrinted | scripts/report_sim_behavior_fidelity.py:559-640 | the same from the text of the file: the printed lines joined by line feeds, with or without a final one, split into lines and loaded |
| Text.SplitLinesJoin | scripts/report_sim_behavior_fidelity.py:561 | `splitlines` returns the lines of a text joined by line feeds, when none is empty or holds a line break of any kind |
| YamlRoundTrip.ScalarRoundTrip | scripts/report_sim_behavior_fidelity.py:567-584 | printed scalars read back with their type; which texts can stand for themselves is said on their characters |
| Relay.SwapPromise | scripts/smoke_pilot_agent_a4_live.py:129-169 | a swap changes the tree only from the expected digest to the desired one, and then takes the staged bytes; any other outcome leaves the whole tree alone |
| Relay.SwapReplays | scripts/smoke_pilot_agent_a4_live.py:144-155 | repeated after it committed it answers that it is committed, although the staged file is gone |
| Relay.DeletePromise | scripts/smoke_pilot_agent_a4_live.py:171-191 | a delete removes only the expected content, leaves no file, and can be repeated |
| Relay.ComposePublicationRelay.WriteBytesChunk | scripts/smoke_pilot_agent_a4_live.py:106-127 | the new tree and the returned size |
| Relay.ComposePublicationRelay.CompareAndSwapFile | scripts/smoke_pilot_agent_a4_live.py:129-169 | the script's outcome and new tree, in the order of its checks |
| Relay.ComposePublicationRelay.CompareAndDeleteFile | scripts/smoke_pilot_agent_a4_live.py:171-191 | the script's outcome and new tree |
| Relay.ComposePublicationRelay.StageChunks | scripts/smoke_pilot_agent_a4_live.py:106-127 | for any split into chunks, empty ones included, sent with the returned size as next offset, the staged file is their concatenation and each returned size its length so far |
| Relay.CleanupPromise | scripts/smoke_pilot_agent_a4_live.py:193-201 | a clean-up removes the path and what lies below it and nothing else; it can be repeated, what was swapped out of the directory before stays, and with a swap wholly outside it commutes |
| Relay.StagedThenSwapped | scripts/smoke_pilot_agent_a4_live.py:106-169 | followed by a committed swap the target holds exactly the original content |
| Relay.StagedSwappedCleaned | src/pilot107/agent/publisher.py:281-285 | with the clean-up after it too, and nothing else has changed but what was below the staging root |
| Publisher.RunEnds | src/pilot107/agent/publisher.py:191-286 | left alone, every run of `publish` ends in finitely many steps, whatever the tree and the records |
| PublisherLoop.WorkspacePublisher.Publish | src/pilot107/agent/publisher.py:191-286 | the loop over the files, with the relay object and the store fields, ends exactly where the step machine does |
| PublisherLoop.WorkspacePublisher.PublishFile | src/pilot107/agent/publisher.py:211-273 | the loop body leads to the next file, or returns or raises where the machine stops |
| PublisherLoop.WorkspacePublisher.WriteStaged | src/pilot107/agent/publisher.py:387-398 | the chunk loop, one empty chunk for an empty file included |
| Publisher.StepSafety | src/pilot107/agent/publisher.py:191-286 | in any state a step changes a path outside the staging area only by turning a change's target from its expected content into its desired one |
| Publisher.RunSafety | scripts/smoke_pilot_agent_a4_live.py:768-775 | the same at every step of every run with foreign writers and crashes anywhere |
| Publisher.RecordsAreTrue | src/pilot107/agent/publisher.py:211-273 | in every such run: a file recorded as committed was once as wanted, one recorded as staged once lay staged with its digest, every file of a published set was once as wanted, and neither a conflict nor a failure is spurious |
| PublisherApproval.OnlyApproved | src/pilot107/agent/publisher.py:321-333 | in every run with foreign writers and crashes: a step of the publisher changes a path outside the staging area only while the change set's record is publishing, a record only while that is approved or publishing, and anything only for an owner who approved this very digest |
| PublisherApproval.ClosedStays | src/pilot107/agent/publisher.py:193-200 | once the publication is terminal or its change set is neither approved nor publishing, no call, tick or crash changes the tree or any record again |
| PublisherApproval.ClosedPublish | src/pilot107/agent/publisher.py:193-200 | so a whole call then does nothing |
| PublisherApproval.OnlyApprovedBytes | src/pilot107/agent/publisher.py:229-262 | no step puts bytes anywhere but pieces of a local file of the approved size and digest on its staging path, or staged bytes of the approved digest on their target |
| PublisherApproval.RecordsGoForward | src/pilot107/agent/publisher.py:211-295 | no file's record ever falls back, and a published or conflicted publication stays so |
| PublisherRecovery.StepInv | src/pilot107/agent/publisher.py:191-286 | without foreign writers every step keeps: files before the frontier final, files after it untouched, one file staged at most, records no further than the files |
| PublisherRecovery.RunInv | src/pilot107/agent/publisher.py:191-295 | so do runs with any number of crashes and restarts |
| PublisherRecovery.RunSettles | src/pilot107/agent/publisher.py:211-286 | from every such state an undisturbed run reaches the one settled outcome, with both records agreeing |
| PublisherRecovery.RecoveryMatches | src/pilot107/agent/publisher.py:191-295 | crashed after any steps and restarted any number of times, then left to finish: same tree, same file records, same verdict as one uninterrupted call |
| PublisherRecovery.ChangeSetRecovers | src/pilot107/agent/publisher.py:275-280 | the change set's record recovers too, if and only if no terminal publication was left with a lagging change set |
| PublisherRecovery.StrandedRunExists | src/pilot107/agent/publisher.py:191-197 | every publication whose run does not raise has a run that leaves one, and that no further call repairs |
| PublisherRecovery.StrandedExactly | src/pilot107/agent/publisher.py:191-197 | such a run exists if and only if an uninterrupted call publishes or finds a conflict, and the stranded record then says which |
| PublisherRecovery.PublishVerdict | src/pilot107/agent/publisher.py:211-286 | an uninterrupted call publishes exactly when every change needs nothing or finds its target as approved and its file of the approved size and digest, and conflicts exactly when the first that does not pass finds its target neither as approved nor as wanted; a published set is as wanted; other paths never change |
| UploadService.FileUploadService.AppendBytes | src/pilot107/core/file_uploads.py:526-557 | errors in the code's order, else truncate, write and count |
| UploadService.FileUploadService.Concatenate | src/pilot107/core/file_uploads.py:561-645 | errors in the code's order, else the merged session in place of its parts |
| UploadService.FileUploadService.WriteToCluster | src/pilot107/core/file_uploads.py:710-728 | block by block the target grows to the whole file, or stops at the first block that fails |
| UploadService.FileUploadService.Complete | src/pilot107/core/file_uploads.py:649-708 | errors in the code's order, digest check, write, final state, and the failed session after a failed write |
| UploadService.FileUploadService.Abort | src/pilot107/core/file_uploads.py:515-524 | a live upload is aborted, and the staging file goes in any case |
| UploadService.AppendAnswers | src/pilot107/core/file_uploads.py:526-557 | every answer to a write, on the session's fields: a stranger finds nothing, an ended upload takes nothing, an offset ahead is a mismatch, and a refusal changes nothing |
| UploadService.CompleteAnswers | src/pilot107/core/file_uploads.py:649-675 | the same for a completion; one already written is answered again |
| UploadService.ConcatAnswers | src/pilot107/core/file_uploads.py:561-610 | the same for a concatenation: anything not the caller's is not found, else the first part that cannot be merged decides |
| UploadService.ConcatSizes | src/pilot107/core/file_uploads.py:561-610 | with nothing wrong about the parts, a declared length is the only fault there can be |
| UploadService.AbortEnds | src/pilot107/core/file_uploads.py:515-524 | an aborted upload takes no bytes and can be neither merged nor completed |
| UploadService.OthersCannotTouch | src/pilot107/core/file_uploads.py:732-737 | over any sequence of requests by others, creations, writes, merges, completions and aborts, an upload stays as it was |
| UploadService.PatchPromise | src/pilot107/core/file_uploads.py:526-557 | an offset is accepted exactly when it is not ahead of the bytes held, the count is then the new length, and the file stays a prefix of a payload exactly when the data is the payload's slice there; nothing else changes |
| UploadService.RetriesKeepPrefix | artifacts/verify_tus_e2e.py:204-225 | for every sequence of retried, overlapping or refused requests with the payload's own bytes the file is the prefix of the reported length; full length means intact |
| UploadService.ResumeFinishes | artifacts/verify_tus_e2e.py:204-225 | whatever came before, sending the rest from the reported offset completes the file |
| UploadService.ConcatPromise | src/pilot107/core/file_uploads.py:561-645 | it succeeds exactly when all parts are the owner's, partial, live and complete and a declared length fits; then the merged session holds the parts' bytes in the listed order, with its target and digest, the parts are gone, and other sessions are not |
| UploadService.CompletePromise | src/pilot107/core/file_uploads.py:649-728 | the cluster is touched only when all bytes arrived and the announced digest, if any, matches; then the target holds the file, or, when a block fails, the blocks before it, and the session has failed |
| ParallelUpload.SizesCover | artifacts/verify_tus_e2e.py:318-319 | the part sizes add up to the total, and all are positive exactly when the total has a byte for each part |
| ParallelUpload.PartsAdmitted | artifacts/verify_tus_e2e.py:341 | the service admits all parts exactly then |
| ParallelUpload.Gen | artifacts/verify_tus_e2e.py:323-332 | the block-copying generator yields the seed repeated for ever, cut to the range |
| ParallelUpload.RepeatedSlice | artifacts/verify_tus_e2e.py:323-332 | any range it yields is that slice of the part's whole stream |
| ParallelUpload.HashedBytes | artifacts/verify_tus_e2e.py:334-339 | chunk by chunk and part by part the hasher is fed the concatenation of the parts' streams |
| ParallelUpload.UploadPart | artifacts/verify_tus_e2e.py:345-352 | one worker's loop fills its part and touches no other upload |
| ParallelUpload.MoveKeepsInv | artifacts/verify_tus_e2e.py:345-352 | any worker's request, and anything done to other sessions, keeps each part a prefix of its own stream and uses up exactly one outstanding chunk |
| ParallelUpload.EveryInterleaving | artifacts/verify_tus_e2e.py:345-360 | the same over every interleaving |
| ParallelUpload.ScheduleEnds | artifacts/verify_tus_e2e.py:345-360 | no schedule sends more than the chunks of all parts, it is finished exactly when it has sent them, and until then some worker can go on |
| ParallelUpload.UploadArrives | artifacts/verify_tus_e2e.py:315-375 | from the total to the target: the driver starts only with a byte for each part, and after every finished schedule the merged upload passes its digest check and the target holds the hashed stream, of just that many bytes |
| Redaction.RedactValue | scripts/real107_probe/probe_real107_snapshot.py:410-423 | the code's recursion over values, with its loops, computes the redaction of any value |
| Redaction.RedactDict | scripts/real107_probe/probe_real107_snapshot.py:411-418 | filling a dictionary key by key redacts every entry in place and order |
| Redaction.RedactIdempotent | scripts/real107_probe/probe_real107_snapshot.py:410-423 | redacting twice is redacting once, cut strings included |
| Redaction.RedactedIsClean | scripts/real107_probe/probe_real107_snapshot.py:410-423 | at any depth a secret-named key holds the marker, and no string is longer than a cut one |
| Redaction.RedactHides | scripts/real107_probe/probe_real107_snapshot.py:410-423 | two values redact alike if and only if they differ only under secret names or beyond the cut |
| Redaction.SecretExactly | scripts/real107_probe/probe_real107_snapshot.py:414 | a name is secret exactly when it spells one of the four words somewhere, in any case |
| Redaction.RedactFixes | scripts/real107_probe/probe_real107_snapshot.py:410-423 | a value is left as it is exactly when its secret names hold the marker and its strings are short, or cut and marked so |
| Summaries.Summarize | scripts/real107_probe/probe_real107_snapshot.py:370-383 | the loop over the payload's entries, count keys and overwriting included, computes the summary |
| Summaries.KeepKnown | scripts/real107_probe/probe_real107_snapshot.py:386-406 | the loop keeps exactly the known keys an item has, in the list's order |
| Summaries.ItemSummary | scripts/real107_probe/probe_real107_snapshot.py:386-407 | an item keeps exactly its entries under known keys, in the list's order; one without any the entries under its first ten sorted keys; what is no dictionary stays whole |
| Summaries.ValueExactly | scripts/real107_probe/probe_real107_snapshot.py:373-382 | warnings, errors and meta stay whole, of a list the first two hundred items are summarised |
| Summaries.SummaryExactly | scripts/real107_probe/probe_real107_snapshot.py:370-383 | under every key of a summary stands what the last entry that writes it has written, its value or its count |
| Summaries.AtMostExactly | scripts/real107_probe/probe_real107_snapshot.py:407 | the order of the keys is that of the first place where they differ |
| Summaries.SortKeysSorts | scripts/real107_probe/probe_real107_snapshot.py:407 | the fallback sorts exactly the item's keys |
| Summaries.SummaryClean | scripts/real107_probe/probe_real107_snapshot.py:370-383 | summaries inherit the marker guarantee |
| Summaries.SummariesHide | scripts/real107_probe/probe_real107_snapshot.py:370-383 | summaries of payloads that differ only under secret names are equal as dictionaries if and only if, wherever list-ness differs, the count key is a payload key already |
| Summaries.PayloadSummariesHide | scripts/real107_probe/probe_real107_snapshot.py:370-371 | the same for answers that are no dictionary |
| Summaries.CountLeaks | scripts/real107_probe/probe_real107_snapshot.py:376-378 | two such payloads with different summaries |
| ArrayRanges.CompressRanges | scripts/scan-array-artifacts.py:75-87 | the loop; the printed spec decodes to the very list, for any list |
| ArrayRanges.RunsFewest | scripts/scan-array-artifacts.py:75-87 | no way to cut the list into consecutive runs uses fewer |
| ArrayRanges.Scan | scripts/scan-array-artifacts.py:25-48 | the spec stands for exactly the tasks that miss an artifact, ascending, with complete plus missing equal to expected |
| ArrayRanges.IncompleteMeaning | scripts/scan-array-artifacts.py:33-40 | a task is listed if and only if it is in range and some artifact is absent |
| ArrayRanges.AbsentExactly | scripts/scan-array-artifacts.py:34-38 | what is listed for a task is exactly the patterns whose artifact is absent, in their order |
| UnifiedDiff.CreatedFilesFromDiff | scripts/smoke-vm-heat-diffusion-agent.py:314-323 | the line loop computes the reading of the whole text, as names and texts in order of first mention |
| UnifiedDiff.NoiseIgnored | scripts/smoke-vm-heat-diffusion-agent.py:317-322 | in any diff, lines that are neither new-file headers nor added lines can be left out anywhere |
| UnifiedDiff.StepExactly | scripts/smoke-vm-heat-diffusion-agent.py:317-322 | what one line does, on its first characters: name a file, keeping the lines of one named before, add a line to the current file and no other, or nothing |
| UnifiedDiff.UnmarkedIgnored | scripts/smoke-vm-heat-diffusion-agent.py:317-322 | a line that does not start with a plus sign can be left out anywhere |
| UnifiedDiff.LinesReadBack | scripts/smoke-vm-heat-diffusion-agent.py:317-322 | on the lines of a diff: distinctly named files, with any such lines in between, are read into exactly their names and texts if and only if no line of theirs starts with two plus signs |
| UnifiedDiff.ReadsBack | scripts/smoke-vm-heat-diffusion-agent.py:314-323 | on the text of a diff, with or without a final line feed: the same if and only if, besides, no name or line of theirs holds any character at which `splitlines` ends a line |
| UnifiedDiff.RenderIsDiff | scripts/smoke-vm-heat-diffusion-agent.py:314-323 | the plain rendering of any files is a diff that `ReadsBack` speaks of |
| UnifiedDiff.LinesRecovered | scripts/smoke-vm-heat-diffusion-agent.py:314-323 | from the texts returned for the text of a diff every line can be recovered if and only if, besides, no file is without lines |
| UnifiedDiff.TextHoldsLines | scripts/smoke-vm-heat-diffusion-agent.py:323 | the text built for a file splits into its lines again if and only if it has any; without lines it is the text of one empty line |
| Walltime.PrintedReadsBack | apps/web/src/AgentProjectPanel.tsx:879-898 | printing and reading gives the number, for any fallback, exactly from 1 to 35,999,999 seconds |
| Walltime.AdmittedReadsBack | apps/web/src/AgentProjectPanel.tsx:964-982 | so for every walltime the validator admits |
| Walltime.AcceptedMeaning | apps/web/src/AgentProjectPanel.tsx:956-962 | the text alone decides whether the fallback is used, and an accepted one means 1 to 35,999,999 seconds |
| Walltime.AcceptedPrintsBack | apps/web/src/AgentProjectPanel.tsx:956-962 | an accepted text prints back to itself if and only if its hours carry no spare zero |
| Walltime.ReadsExactly | apps/web/src/AgentProjectPanel.tsx:956-962 | on characters: what is read is a clock time of two to four, two and two digits with minutes and seconds below sixty, not all zero; anything else is the fallback |
| Resources.NeverUnsupported | apps/web/src/AgentProjectPanel.tsx:802-851 | for any inputs the result is empty or a supported pair |
| Resources.DefaultsSoundComplete | apps/web/src/AgentProjectPanel.tsx:802-864 | with distinct, non-empty, trimmed names it is a pair the validator accepts, or empty exactly because no pair is supported; an entitlement that is not fresh and authoritative makes no difference |
| Resources.FallbackChoice | apps/web/src/AgentProjectPanel.tsx:818-832 | the platform's own default when supported, else the first partition that offers a known QoS with the first it lists |
| Resources.FirstUsableDecides | apps/web/src/AgentProjectPanel.tsx:835-849 | the first usable association decides, and with the pair it stands for |
| Resources.EntitledDecides | apps/web/src/AgentProjectPanel.tsx:835-849 | so for the whole resolver, for an entitlement that is fresh and authoritative, its nested list before the root one |
| Resources.SupportsExactly | apps/web/src/AgentProjectPanel.tsx:808-816 | resolver and validator ask the same of a pair: the QoS is known and the first partition of the name lists it or lists none |
| Resources.UsableContributes | apps/web/src/AgentProjectPanel.tsx:838-847 | an association contributes exactly when the QoS it asks for, its default before the first known one it lists, is supported somewhere: with its own partition if that supports it, else with the first that does |
| Resources.MissesExactly | apps/web/src/AgentProjectPanel.tsx:802-851 | for any names that are not empty, repeated or not: a supported pair is missed if and only if nothing usable is entitled, the platform's default is unsupported, and an earlier namesake of the first offering partition does not allow the QoS that goes with it |
| Resources.RepeatedNameHides | apps/web/src/AgentProjectPanel.tsx:818-832 | capabilities with a repeated name for which that happens |
| Text.NumeralRoundTrip | scripts/scan-array-artifacts.py:84-86 | decimal numerals read back |
| Text.SplitJoin | scripts/scan-array-artifacts.py:87 | splitting a joined list on a separator its parts do not contain returns the list |

## Left out

- HTTP, Docker, SSH, subprocesses, sleeping, deadlines, argument parsing and report printing; React components, queries and styling.
- SHA-256 is an arbitrary function of the bytes: no theorem needs it to be injective. Base64 is left out, chunks are bytes.
- Blanks are those Python strips, in the web code too; JavaScript's `trim` differs on U+001C to U+001F, U+0085 and U+FEFF. Lower case is that of the ASCII letters and the Kelvin sign, the only other character that becomes a letter of a secret word without a mark after it. Python's limit on the length of integer texts is left out; what `int` makes of other scripts' digits is a parameter.
- `ast.literal_eval` is symbolic: which quoted or bracketed texts it accepts is a parameter, its value is the text.
- JavaScript's stable sort and Python's `sorted` are insertion sorts; event ids are naturals and distinct, as the store's primary key makes them.
- Relay scripts are one step each: the gap between reading a digest and renaming a file inside one script is not modelled.
- Publisher: one publisher at a time (no optimistic-lock conflict in the store), workspace files unchanged between runs, no directories, path authorisation assumed to hold, `make_dir`, a failing clean-up, and relay answers other than its four outcomes left out.
- Publisher.RecordsAreTrue: after foreign writers nothing is claimed about what the target holds now, only about what it held when the step ran.
- Upload service: quotas, target path policy, expiry, automatic extraction, the session store, and a crash between writing a chunk and counting it; whether a block reaches the cluster is a parameter. The directory and file name are one path.
- ParallelUpload.UploadArrives: a request is one atomic step of the service, and a worker's failed request, which ends the driver, does not occur.
- JSON numbers are reals; NaN and duplicate keys of one object are left out, a dictionary is a list of entries in insertion order.
- ArrayRanges.Scan: whether a file exists, is not empty and stays below the root is a parameter; pattern checks are left out.
- Resources.DefaultsSoundComplete: names are assumed distinct, non-empty and trimmed; for repeated names see `MissesExactly`.
- Status labels, percentiles, acceptance summaries and state-set membership tests are left out.
