# Verification of the guest-message store and its neighbours

A Dafny model of the parts of the reservation backend whose guarantees span several operations, with
proofs of those guarantees. `dafny verify dfyconfig.toml` checks everything.

## What is modelled

**The canonical guest-message store.** `CanonicalModel` and `CanonicalStore` hold the rows and the
specification of recording one raw row: conversation, lookup by raw key and provider id, the merge-window
heuristic, the savepoint with its unique indexes, enrichment and channel. `CanonicalStoreRows` is the same
as a class whose methods change the tables step by step, each proved equal to its specification.
`CanonicalStoreLaws` proves what every recording and every live run keeps. `RecordRace` splits a recording
into its database statements, lets any number of workers interleave with each other and with backfill
steps, and proves the result linearizable; `RaceProgress` says when a worker gets on. `RecordAnswers` and
`MessageColumns` say what all this comes to in terms of the tables alone: which message a row is given, and
what each column of a message is.

**The backfill.** `CanonicalBackfill` specifies dry run, validation and application of timeline groups;
`BackfillRows` is the program as it runs, with its report and loops, proved equal to it. `BackfillFrames`,
`BackfillPrediction`, `BackfillConvergence` and `BackfillIsolation` prove what a step touches, that the dry
run predicts the apply run, that a second run finds the same and changes nothing, and that other
conversations are left alone.
`CanonicalRuns` proves the invariants of any mix of recordings and backfill steps.
`BackfillSharedIds` says what a step leaves when raw rows share a provider id. `BackfillValidation` and
`BackfillCounts` say what the report of a step or scan holds: every anomaly exactly when it is observed, and
what each number counts.

**Reading back.** `CanonicalTimeline` proves that the batch timeline refines the one for a single
reservation. `CanonicalRead` models the tenant's status row with its cutoff, completion and read flag,
live validation and parity, and proves the cutover one-way safe over every run of commands.
`TimelineShows` says which entries a timeline has, `ParityReport` what a comparison reports, and `ReadRuns`
which command of a run each column of the status row is owed to.

**Outbound text.** `BodyFormat`, `BodyReflow` and `EmailHtml` model the line normaliser, the reflow of
long lines and the HTML printer with its stripper, on concrete strings. `BodyParagraphs`, `ReflowShape` and
`EmailReading` say what comes out in terms of words, cuts and what a reader of the HTML sees;
`TagExpressions` and `StrippedText` say what the stripper's expressions match and what it leaves.

**Smaller cores.** `CheckinClaim` (row-lock claim of the check-in link as interleaved steps),
`BillingRecipients` and `InvoiceReplacements` (save guards with table constraints as transition systems),
`GuestEmailIngest` (IMAP polling), `LanguagePolicy` and `ParkingReply` (the language of a reply, and of each
part of the parking reply), `DocumentOcr` and `PersonMerge` (the second OCR pass). Beside each stand its
rules in other words: `ClaimLaws`, `RecipientRules`, `ReplacementRules`, `InboxLaws`, `LanguagePriority`,
`ParkingTexts` and `OcrLaws`.

## Conventions and assumptions

- A row's primary key is its position in its table; nothing that is modelled deletes a row. Times are
  integers in microseconds. Whitespace is space, tab, CR and LF, and letter case is ASCII.
- The unique indexes are those of `backend/apps/communications/models.py:258-490`: one conversation per
  reservation, one source per raw row, one source per tenant, provider and provider id when that is set.
- What other services decide is a parameter and may be any function: the timeline's merge rule, item
  serializers, merge of display items and groups, the recognisers of greetings, sentences and signatures (as
  long as they cut only at whitespace), the HTML reference table beyond the five references that escaping
  writes, field validators, the country table, what the OCR calls return, what a mailbox lists.
- Results about convergence, mixed runs and interleavings with the backfill assume what the backfill
  assumes: groups are non-empty, hold rows of their own reservation, and no two rows share a key or a
  provider id. The raw tables have unique ids of their own, so two rows can share a provider id only when
  their ids differ in outer whitespace, or as outbound rows of different providers.
  `BackfillSharedIds.SharedIdLosesItsSource` shows that this part cannot be given up, and
  `BackfillSharedIds.StepKeepsSourcedIff` says exactly when a step leaves every message with a source. The
  prediction of the apply run needs only that rows of different reservations are apart.
- A backfill step is one transaction taken while nobody holds that reservation's conversation.
- The docstring of `send_guest_checkin_link_via_channex` says that callers cannot double-send. That holds
  for concurrent callers, but a transaction can be lost after the provider accepted the message.
  `CheckinClaim.CallRepeatsOnlyLost` shows that a call sends a further message exactly when an accepted one
  was lost before, `CheckinClaim.AtMostOneSend` counts them, and `CheckinClaim.TwoAreSent` is such a run.
- `choose` by itself is not always a fixed point: `LanguagePolicy.FixedPointIff` gives the exact condition,
  and a code in upper case, taken over as it stands, would fail it. No conversation stores such a code, so
  with the stored language of any conversation and the detector's answer `choose` is a fixed point
  (`LanguagePolicy.FixedPointInUse`).
- Template and frame of a parking reply are picked for one language, but need not be in it:
  `_text_for_lang` falls back to English, and greeting, sign-off, default name and facts speak different languages. A Slovak
  question gets a Slovak template in an English frame (`ParkingReply.SlovakIsMixed`), an Italian one the
  model's Italian text in an English frame (`ParkingReply.ItalianIsMixed`). `ParkingReply.ModelReplyIff` and
  `ParkingReply.TemplateReplyIff` say exactly when a reply is in one language. A text is taken to be in the
  language of its key and the model's text in the language it claims; names, prices, notes and the house
  footer are in none.
- Replacement cases can form cycles (`InvoiceReplacements.CyclesAreAdmitted`), so not every walk ends;
  `InvoiceReplacements.WalksAreFreeIff` says exactly which do.
- The stored IMAP UID moves past mail that cannot be fetched and replies without a reservation;
  `GuestEmailIngest.PassedOverHasRowIff` says exactly which passed replies have a row.

## Model

| member | source | states |
|---|---|---|
| CanonicalModel.CanonicalIdIsStable | backend/apps/communications/canonical_store.py:404-411 | a canonical provider id is non-blank, trimmed and not locally made up, and it is its own canonical id |
| CanonicalStore.LockConversation | backend/apps/communications/canonical_store.py:151-169 | get or create: the answer is the reservation's conversation, nothing else changes, and the store changes exactly when there was none |
| CanonicalStore.LookupSource | backend/apps/communications/canonical_store.py:172-190 | finds a source exactly when one would block an insert under the unique indexes, and what it finds is such a source |
| CanonicalStore.HeuristicMatch | backend/apps/communications/canonical_store.py:218-273 | the first message by time and id in the window, direction and conversation of which some source or the message itself merges; none exactly when no message suits |
| CanonicalStore.MatchIsUnique | backend/apps/communications/canonical_store.py:218-273 | no other answer meets that description |
| CanonicalStore.OrderedIdsAreOrdered | backend/apps/communications/canonical_store.py:229-253 | the candidate query lists its rows strictly by time and id |
| CanonicalStoreRows.StoreRows.LockConversation | backend/apps/communications/canonical_store.py:151-169 | the in-place get-or-create is the specified one |
| CanonicalStoreRows.StoreRows.LookupSource | backend/apps/communications/canonical_store.py:172-190 | the two-step lookup is the specified one |
| CanonicalStoreRows.StoreRows.LockHeuristicCandidates | backend/apps/communications/canonical_store.py:218-253 | exactly the candidates, in order |
| CanonicalStoreRows.StoreRows.HeuristicMatch | backend/apps/communications/canonical_store.py:256-273 | the nested loops find the specified match |
| CanonicalStoreRows.StoreRows.InsertSource | backend/apps/communications/canonical_store.py:303-318 | refused exactly when a unique index would be violated, and then nothing is stored |
| CanonicalStoreRows.StoreRows.EnrichMessage | backend/apps/communications/canonical_store.py:321-344 | only the matched row changes, to the enriched row |
| CanonicalStoreRows.StoreRows.ReconcileChannel | backend/apps/communications/canonical_store.py:347-351 | a message with a Channex source is put on Booking, nothing else changes |
| CanonicalStoreRows.StoreRows.Settle | backend/apps/communications/canonical_store.py:86-125 | the savepoint with its rollback and second lookup is the specified step |
| CanonicalStoreRows.StoreRows.RecordCanonicalSource | backend/apps/communications/canonical_store.py:56-125 | the whole procedure on mutable tables gives the specified store and answer, which `RecordAnswers` and `MessageColumns` pin down column by column; the mismatch error leaves every table as it was |
| CanonicalStoreLaws.RecordCases | backend/apps/communications/canonical_store.py:56-125 | the three ways recording a routed row can end, and what each leaves |
| CanonicalStoreLaws.RecordKeepsValid | backend/apps/communications/canonical_store.py:56-125 | recording any row keeps foreign keys, one conversation per reservation, one source per raw row and per provider id, tenants, every source in its own conversation, a source for every message, and Channex messages on Booking |
| CanonicalStoreLaws.RecordResolves | backend/apps/communications/canonical_store.py:56-125 | a row that was answered with a message has a source of that message from then on |
| CanonicalStoreLaws.RecordKeepsResolved | backend/apps/communications/canonical_store.py:68-77 | recording other rows does not change which message a row has |
| CanonicalStoreLaws.RecordAgain | backend/apps/communications/canonical_store.py:68-77 | recording a row that has its message writes nothing to messages or sources and answers with that message, or with the mismatch error exactly when it lives in another conversation |
| CanonicalStoreLaws.RecordGrows | backend/apps/communications/canonical_store.py:321-351 | rows are never removed, moved, turned, hidden or made later; media and non-blank delivery status are never replaced; the channel only ever becomes Booking |
| CanonicalStoreLaws.LiveRun | backend/apps/communications/canonical_store.py:276-344 | over every live run a message's time is the earliest and its stripped body as long as the longest of its sources, and n sources share its direction and span at most n - 1 merge windows |
| CanonicalStoreLaws.RecordKeepsSummaries | backend/apps/communications/canonical_store.py:276-344 | recording keeps that summary of every message and gives it to the message it inserts |
| CanonicalStoreLaws.SummaryIgnoresOrder | backend/apps/communications/canonical_store.py:321-344 | so time and body length do not depend on the order in which the same rows were attached |
| CanonicalStoreLaws.RecordKeepsDrift | backend/apps/communications/canonical_store.py:218-253 | every source lies at most n - 1 windows after its message's time, although that time drifts |
| CanonicalStoreLaws.LiveRunDrawn | backend/apps/communications/canonical_store.py:293-300 | over every live run media and delivery status are blank exactly when all sources' are, else one source's |
| CanonicalStoreLaws.LeavesKeepsMatch | backend/apps/communications/canonical_store.py:79-84 | a match read under the conversation lock is not changed by writers in other conversations |
| RecordAnswers.SourcesAreTold | backend/apps/communications/canonical_store.py:366-411 | in every valid store the columns of a source are read off its raw row, and no two sources have one row or one provider id: the same trimmed text, not blank and not made up locally in any letter case |
| RecordAnswers.UnroutedIsSkipped | backend/apps/communications/canonical_store.py:58-60 | a row without a reservation is skipped and changes nothing |
| RecordAnswers.KnownIsAnswered | backend/apps/communications/canonical_store.py:68-77 | a row with a source, or one that shares its provider id with a row that has one, is given that message when it is in the conversation, else the mismatch error; no message and no source is written |
| RecordAnswers.JoinerIsTaken | backend/apps/communications/canonical_store.py:79-99 | a new row joins the first message by time and id that is visible in its conversation and direction, within 15 or 3 minutes, and alike by a source or by itself |
| RecordAnswers.StrangerIsBorn | backend/apps/communications/canonical_store.py:79-114 | a new row that suits no message gets a message and a source of its own in its conversation |
| MessageColumns.LiveRowIsTold | backend/apps/communications/canonical_store.py:276-344 | every column of a message born live, over every mix of recordings and backfill steps: direction, first text and fallback time of its first row; earliest time; first of the longest bodies; first media and first delivery status that are not blank |
| MessageColumns.BackfilledRowIsTold | backend/apps/communications/canonical_backfill.py:525-606 | the same of a message that the backfill inserts, from its group and the sources it has |
| MessageColumns.LiveChannel | backend/apps/communications/canonical_store.py:347-389 | its channel is Booking when some source is from Channex, else WhatsApp when its first source is, else the column of that row, e-mail when it has none |
| MessageColumns.LiveRunChannel | backend/apps/communications/canonical_store.py:347-389 | the same for every message of every live run |
| RecordRace.EventIsSerial | backend/apps/communications/canonical_store.py:68-125 | in the interleaved machine every event leaves the store alone or acts as one uninterrupted transaction at that moment |
| RecordRace.NextKeepsInv | backend/apps/communications/canonical_store.py:151-169 | no two workers hold one conversation, and what a worker read about its own is still current |
| RecordRace.InterleavingIsSerial | backend/apps/communications/canonical_store.py:56-125 | every interleaving of workers and backfill steps leaves the store that the same transactions leave one after the other |
| RecordRace.InterleavedAnswers | backend/apps/communications/canonical_store.py:56-125 | every finished worker has the answer it would have had at its place in that order |
| RecordRace.RaceIsSafe | backend/apps/communications/canonical_store.py:68-125 | in every interleaving: at most one conversation per reservation, one source per raw row and per provider id, and every answered worker was given the message its row still has |
| RecordRace.SameRowSameMessage | backend/apps/communications/canonical_store.py:68-125 | workers that record the same row and get a message get the same one |
| RecordRace.LoserTakesWinner | backend/apps/communications/canonical_store.py:115-125 | a worker that loses a uniqueness race writes no message or source and returns the winner's message, or the mismatch error exactly when that is in another conversation |
| RaceProgress.LockIff | backend/apps/communications/canonical_store.py:151-169 | a worker takes the lock exactly when nobody is past it and unfinished in the same conversation |
| RaceProgress.BackfillIff | backend/apps/communications/canonical_backfill.py:379-393 | a backfill step is applied exactly when no worker holds that conversation |
| RaceProgress.LookEnds | backend/apps/communications/canonical_store.py:68-77 | under the lock, a worker whose row has a source is done with the recorded answer, any other goes on |
| RaceProgress.AloneIsRecord | backend/apps/communications/canonical_store.py:56-125 | the four steps of a worker that nobody is in the way of are recording its row |
| CanonicalBackfill.LookupPair | backend/apps/communications/canonical_backfill.py:609-622 | finds a blocking source, reports a conflict, or finds none exactly when an insert would go through |
| CanonicalBackfill.UnblockedIff | backend/apps/communications/canonical_backfill.py:411-496 | a group is not blocked exactly when no member's two lookups disagree, every source found is of the reservation's tenant and conversation, and all of them are on one visible message |
| CanonicalBackfill.UnblockedShows | backend/apps/communications/canonical_backfill.py:471-496 | that message is then the one the group resolves to, and there is none exactly when no member is found |
| BackfillValidation.OpenIffUnblocked | backend/apps/communications/canonical_backfill.py:353-381 | a group is handled exactly when its sources are its own, on one visible message that no other group of the reservation is found on |
| BackfillValidation.ProcessTells | backend/apps/communications/canonical_backfill.py:323-393 | processing a reservation without writing adds exactly the anomalies that are observed of it: repeated keys, disagreeing lookups, foreign tenants and conversations, invisible and split messages, shared messages, and in a validation the missing sources of open groups |
| BackfillValidation.ScanTells | backend/apps/communications/canonical_backfill.py:268-320 | a scan reports an anomaly exactly when it is observed of some reservation |
| BackfillValidation.ValidationIsCleanIff | backend/apps/communications/canonical_backfill.py:268-511 | a validation finds nothing exactly when in every reservation no key stands twice, every group's sources are its own and on one visible message, no message is reached by two groups, and every member of every group has a source |
| BackfillCounts.ProcessCounts | backend/apps/communications/canonical_backfill.py:499-567 | every counter of the report grows by what the open groups contribute to it, in all three modes |
| BackfillCounts.CreatedAreCounted | backend/apps/communications/canonical_backfill.py:539-567 | the messages a step inserts, and the sources on them, are those it counts as created |
| BackfillCounts.ScanCounts | backend/apps/communications/canonical_backfill.py:268-335 | a scan counts each reservation and each group once, and as created the messages by which the table grew |
| BackfillRows.BackfillRun.ResolveMembers | backend/apps/communications/canonical_backfill.py:420-474 | the member loop tallies messages, missing rows and anomalies as specified, and which rows had a source |
| BackfillRows.BackfillRun.ResolveGroup | backend/apps/communications/canonical_backfill.py:411-496 | the resolution and the anomalies it appends to the report are the specified ones |
| BackfillRows.BackfillRun.CheckDuplicates | backend/apps/communications/canonical_backfill.py:338-351 | a member is reported exactly when its key stands before it in the same or an earlier group |
| BackfillRows.BackfillRun.FindCrossing | backend/apps/communications/canonical_backfill.py:354-366 | exactly the messages that two groups reach are reported, and exactly the groups that reach one are blocked |
| BackfillRows.BackfillRun.InspectGroup | backend/apps/communications/canonical_backfill.py:499-522 | validating and simulating a group add the specified counts and anomalies, which are those that `BackfillValidation.ProcessTells` and `BackfillCounts.ProcessCounts` describe |
| BackfillRows.BackfillRun.InsertGroupMessage | backend/apps/communications/canonical_backfill.py:570-606 | the inserted row carries the first non-blank delivery status and media of the members |
| BackfillRows.BackfillRun.FillMembers | backend/apps/communications/canonical_backfill.py:544-565 | the loop of savepoints attaches each missing row or counts a refused insert |
| BackfillRows.BackfillRun.ApplyGroup | backend/apps/communications/canonical_backfill.py:525-567 | applying a group on mutable tables is the specified step, with its three counts |
| BackfillRows.BackfillRun.ProcessReservation | backend/apps/communications/canonical_backfill.py:323-393 | the three loops over one reservation give the specified store and report |
| BackfillRows.BackfillRun.ScanTenant | backend/apps/communications/canonical_backfill.py:268-320 | the loop over the reservations gives the specified store and report in every mode |
| BackfillPrediction.UnblockedGroup | backend/apps/communications/canonical_backfill.py:411-496 | an unblocked group without a visible message has no source at all; one with it has no other message |
| BackfillPrediction.DryRunPredictsApply | backend/apps/communications/canonical_backfill.py:288-310 | over all reservations and from any store, the dry run announces exactly the messages created and the sources created or healed by an apply run, and the same blocking list; it changes nothing |
| BackfillConvergence.SettledResolves | backend/apps/communications/canonical_backfill.py:411-496 | a group whose rows are all on one visible message of the reservation resolves to it with nothing missing and nothing to report |
| BackfillConvergence.RestingProcess | backend/apps/communications/canonical_backfill.py:323-393 | processing a reservation whose open groups are settled changes no row in any mode, creates and heals nothing and reports just what resolving it reports |
| BackfillConvergence.ApplySettlesGroup | backend/apps/communications/canonical_backfill.py:525-567 | an unblocked group that is applied after strangers were written ends up settled in a valid store |
| BackfillConvergence.ApplySettlesOpen | backend/apps/communications/canonical_backfill.py:323-393 | whatever is blocked, an apply step keeps the store valid and settles every open group on a message of its own |
| BackfillConvergence.ApplyRests | backend/apps/communications/canonical_backfill.py:323-393 | whatever it finds, an apply step leaves the open groups settled and the blocked ones blocked as before, and what is found afterwards is what it reported |
| BackfillConvergence.ApplyScanRests | backend/apps/communications/canonical_backfill.py:268-320 | an apply scan leaves every reservation so and reports what is then found |
| BackfillConvergence.BackfillConverges | backend/apps/communications/canonical_backfill.py:268-393 | whatever an apply scan found, any later scan of the same groups in any mode changes no row, creates, heals and announces nothing, and reports the same blocking list; so a validation reports nothing exactly when the apply scan did not |
| BackfillIsolation.BackfillLeaves | backend/apps/communications/canonical_backfill.py:525-567 | a backfill step changes nothing in the conversation of any other reservation |
| CanonicalRuns.RunKeepsValid | backend/apps/communications/canonical_backfill.py:525-567 | a recording or a backfill step keeps every invariant of the store |
| CanonicalRuns.MixedRun | backend/apps/communications/canonical_store.py:86-114 | over every mix of recordings and backfill steps: every message has a source, every source lies in its row's conversation, Channex messages are on Booking, nothing stored is lost |
| CanonicalRuns.BlockedGroupsAreSpared | backend/apps/communications/canonical_backfill.py:353-381 | a message that a blocked group reaches is not changed and gets no source in that step |
| CanonicalRuns.LiveMessagesSummarise | backend/apps/communications/canonical_backfill.py:544-567 | a message born live keeps the earliest time and longest body of its sources through backfill steps too |
| CanonicalRuns.RecordedOnceIsEnough | backend/apps/communications/canonical_store.py:68-77 | recording a row again at any later point of a mixed run gives the same answer and writes nothing |
| BackfillSharedIds.BornWithSourceIff | backend/apps/communications/canonical_backfill.py:541-565 | the message that applying a group inserts has a source exactly when some member had none when the group was resolved and no stored source blocks it when it is applied |
| BackfillSharedIds.HandleAllClash | backend/apps/communications/canonical_backfill.py:371-393 | after the open groups were applied a row is blocked exactly when it was before or collides with one of their rows, inserted or not |
| BackfillSharedIds.StepKeepsSourcedIff | backend/apps/communications/canonical_backfill.py:323-393 | whatever provider ids the rows share, a step leaves every message with a source exactly when each open group without a visible message has a row that no stored source blocks and that collides with no row of an earlier open group |
| BackfillSharedIds.SharedIdLosesItsSource | backend/apps/communications/canonical_backfill.py:371-393 | with one provider id on two rows in two groups of a reservation, both groups are applied and the step leaves a message without a source |
| CanonicalTimeline.DisplayItemsForMessage | backend/apps/communications/canonical_timeline.py:55-91 | the loop over a message's sources gives the specified display items |
| CanonicalTimeline.WhatsappRowsFromMessages | backend/apps/communications/canonical_timeline.py:123-133 | the rows with each pk once, at its first place |
| CanonicalTimeline.TimelineForMessages | backend/apps/communications/canonical_timeline.py:136-151 | the loop over messages gives the specified timeline |
| CanonicalTimeline.TimelineForReservation | backend/apps/communications/canonical_timeline.py:154-156 | the in-place timeline is the specified one, which `TimelineShows.TimelineIsShown` describes |
| CanonicalTimeline.OrderedListsAgree | backend/apps/communications/canonical_timeline.py:51-51 | the order by time and pk leaves no choice: two ordered lists of the same messages are equal |
| CanonicalTimeline.SplitIsQuery | backend/apps/communications/canonical_timeline.py:165-168 | splitting the globally sorted messages by reservation is sorting each reservation's messages |
| CanonicalTimeline.NothingRepeats | backend/apps/communications/canonical_timeline.py:123-133 | with one source per WhatsApp row, leaving out repeated rows leaves out nothing |
| CanonicalTimeline.JobsAgree | backend/apps/communications/canonical_timeline.py:112-120 | the jobs fetched for all reservations answer like those fetched for one |
| CanonicalTimeline.BatchRefinesSimple | backend/apps/communications/canonical_timeline.py:159-184 | the batch's computation for a reservation equals the reservation's own |
| CanonicalTimeline.TimelinesByReservation | backend/apps/communications/canonical_timeline.py:159-184 | for every store and list of reservations each gets exactly the timeline it has on its own |
| TimelineShows.TimelineIsShown | backend/apps/communications/canonical_timeline.py:43-156 | a timeline has one entry for each visible message of the reservation of which some source is shown, by time and pk; the entry merges those of the shown sources, in order and each WhatsApp row with its last job, and carries the message's id |
| CanonicalRead.NoDiffIffSame | backend/apps/communications/canonical_read.py:140-152 | two items have no difference exactly when they agree on every key but the canonical id, an absent key read as None |
| CanonicalRead.DiffItems | backend/apps/communications/canonical_read.py:144-152 | the loop over the keys gives exactly the differing fields |
| CanonicalRead.DiffTimelines | backend/apps/communications/canonical_read.py:172-176 | the differing positions, and none exactly when the timelines are the same |
| CanonicalRead.CompareParity | backend/apps/communications/canonical_read.py:155-193 | the mismatches in order, none exactly when every reservation is in parity, and how many reservations have entries |
| CanonicalRead.ReadSwitch.ValidateCanonicalRead | backend/apps/communications/canonical_read.py:69-137 | no blocker exactly when the backfill is complete with a cutoff, a validation scan finds nothing, every visible message has a source and every group member has its own; else the blockers with their counts, in order; nothing is written |
| CanonicalRead.ReadSwitch.PersistCutoff | backend/apps/communications/canonical_backfill.py:174-201 | a complete stored cutoff is kept, otherwise all columns are written, which ones from what `ReadRuns.CutoffIsFirst` says |
| CanonicalRead.ReadSwitch.RunBackfill | backend/apps/communications/canonical_backfill.py:204-258 | only an apply run stores a cutoff, and the scan is the specified one |
| CanonicalRead.ReadSwitch.MarkComplete | backend/apps/communications/canonical_backfill.py:230-247 | refused exactly without a stored cutoff; else completes exactly when the validation finds nothing |
| CanonicalRead.ReadSwitch.Enable | backend/apps/communications/canonical_read.py:196-230 | succeeds exactly when live validation and parity both hold, and otherwise leaves the row as it was and says how many blockers or mismatches there are |
| CanonicalRead.ReadSwitch.Disable | backend/apps/communications/canonical_read.py:233-257 | clears the read flag and nothing else |
| CanonicalRead.CutoffIsFixed | backend/apps/communications/canonical_backfill.py:174-258 | over every run of commands a stored cutoff never changes, and the read flag implies completion and a cutoff |
| CanonicalRead.FlagHasEnable | backend/apps/communications/canonical_read.py:196-230 | a flag that is on at the end of a run was turned on by an enable in the run, when parity and live validation held |
| ReadRuns.CutoffIsFirst | backend/apps/communications/canonical_backfill.py:174-217 | from a row without a cutoff: one is stored at the end of a run exactly when the run has an apply run, and then it is, column by column, the one computed for the first |
| ReadRuns.CompletedByLast | backend/apps/communications/canonical_backfill.py:230-247 | the tenant is complete since the last mark-complete at which there was a cutoff and nothing was wrong with the groups, so that every member had a source |
| ReadRuns.FlagByLast | backend/apps/communications/canonical_read.py:196-257 | the read flag is what the last disable, or the last enable that was given all it asks for, made it |
| ReadRuns.ReadyIff | backend/apps/communications/canonical_read.py:69-137 | what enabling asks for: completion, a cutoff, clean groups, a source for every visible message and for every raw row, and timelines that agree |
| ReadRuns.BlockerIff | backend/apps/communications/canonical_read.py:69-137 | which blockers live validation reports, each exactly for its reason |
| ReadRuns.HiddenAreCounted | backend/apps/communications/canonical_read.py:85-97 | the first count in them is how many visible messages have no source |
| ParityReport.DiffTells | backend/apps/communications/canonical_read.py:140-152 | two items differ in just the keys on which they do not agree, apart from the canonical id, each with both values |
| ParityReport.ReportIs | backend/apps/communications/canonical_read.py:155-193 | the comparison reports exactly the reservations whose timelines do not agree, in order, with the two lengths or else every differing place |
| BodyFormat.NormalizeTimelineNewlines | backend/apps/communications/guest_message_body_format.py:111-129 | the line loop and the two trimming loops give the specified text |
| BodyFormat.LinesOfNormalized | backend/apps/communications/guest_message_body_format.py:111-129 | normalised text has no leading, trailing or doubled blank line; its other lines are trimmed with single spaces |
| BodyFormat.NormalizeIsIdempotent | backend/apps/communications/guest_message_body_format.py:111-129 | normalising twice is normalising once |
| BodyFormat.NormalizeKeepsInk | backend/apps/communications/guest_message_body_format.py:111-129 | every non-whitespace character is kept, in order |
| BodyParagraphs.NormalizeIsParagraphs | backend/apps/communications/guest_message_body_format.py:111-129 | the normaliser keeps just the paragraphs of a text, their lines and their words: single spaces, line breaks and blank lines between them |
| BodyReflow.ReflowIsParts | backend/apps/communications/guest_message_body_format.py:55-108 | a reflowed line is neat parts that give the line back when joined by single spaces |
| BodyReflow.ReflowSentences | backend/apps/communications/guest_message_body_format.py:80-93 | the block loop closes a part at 180 characters as specified |
| BodyReflow.ReflowSingleLineParagraphs | backend/apps/communications/guest_message_body_format.py:55-108 | greeting, sentence blocks and signature are cut as specified, which `ReflowShape.ReflowIsShaped` describes |
| BodyReflow.NormalizeOutboundPlainText | backend/apps/communications/guest_message_body_format.py:132-138 | the outbound text is the specified one |
| BodyReflow.OutboundIsIdempotent | backend/apps/communications/guest_message_body_format.py:132-138 | outbound normalisation is idempotent for any recognisers that cut only at whitespace |
| BodyReflow.OutboundKeepsInk | backend/apps/communications/guest_message_body_format.py:132-138 | it keeps every non-whitespace character in order, and its result is normalised |
| ReflowShape.ReflowIsShaped | backend/apps/communications/guest_message_body_format.py:55-108 | a neat line of 120 characters or more becomes greeting, sentence blocks and signature with a blank line between each two: the sentences lie between the cuts, each block but the last reaches 180 characters with its last sentence and not before, and a signature found in the last block stands alone |
| ReflowShape.GreetingStandsApart | backend/apps/communications/guest_message_body_format.py:65-78 | with a greeting the result begins with it and a blank line |
| ReflowShape.OutboundIs | backend/apps/communications/guest_message_body_format.py:132-138 | outbound text that is one long line when normalised is that line reflowed, any other is the normalised text |
| EmailHtml.UnescapeEscaped | backend/apps/communications/guest_email_html.py:15-18 | unescaping undoes escaping whatever follows |
| EmailHtml.Passes | backend/apps/communications/guest_message_body_format.py:33-39 | the tag passes and the unescaping of the stripper, one after the other, over any rendered pieces |
| EmailHtml.AllPartsAreShown | backend/apps/communications/guest_email_html.py:31-45 | rendered paragraphs, also ones that end in the footer, carry exactly their text |
| EmailHtml.StripperUndoesPrinter | backend/apps/communications/guest_email_html.py:21-45 | for every body, stripping the rendered HTML gives exactly the body's non-whitespace characters in order |
| EmailHtml.StayFooterOk | backend/apps/communications/guest_email_html.py:10-12 | the house footer is one that this holds for |
| EmailHtml.BodiesAgree | backend/apps/communications/guest_email_html.py:48-57 | both alternatives of a mail say the same, and rendering the normalised text again renders the same |
| EmailHtml.RenderGuestMessageEmailHtml | backend/apps/communications/guest_email_html.py:21-45 | the loop over paragraphs gives the specified HTML |
| EmailReading.RenderIsRead | backend/apps/communications/guest_email_html.py:15-45 | read as HTML, the rendered body is the paragraphs of the outbound text, one element each, with a break between lines, every character as written, and the footer, which may be any one line in a paragraph tag, in an element of its own |
| EmailReading.HouseIsRead | backend/apps/communications/guest_email_html.py:10-45 | so it is with the house footer |
| EmailReading.EscapedIsSafe | backend/apps/communications/guest_email_html.py:15-18 | escaped text has no quote and no angle bracket, and every ampersand begins one of the five references |
| StrippedText.RenderIsStripped | backend/apps/communications/guest_message_body_format.py:33-39 | stripping the rendered body gives, character by character, the lines of the outbound text with a blank line after each, whatever markup characters they hold |
| StrippedText.UntaggedStays | backend/apps/communications/guest_message_body_format.py:33-35 | text without an opening or without a closing bracket stays as it is |
| EmailReading.GivenHtmlIsKept | backend/apps/communications/guest_email_html.py:48-57 | HTML that is given is kept but for outer whitespace, unless it is blank |
| TagExpressions.BreakIff | backend/apps/communications/guest_message_body_format.py:28-36 | the break expression matches exactly a line-break tag, in any case and with any spaces |
| TagExpressions.BlockEndIff | backend/apps/communications/guest_message_body_format.py:29-37 | the block expression matches exactly the closing tags of paragraphs, divisions, rows, items and headings |
| TagExpressions.TagIff | backend/apps/communications/guest_message_body_format.py:30-38 | the tag expression matches exactly what stands between an angle bracket and the next closing one, when that is not nothing |
| CheckinClaim.NextKeepsExclusive | backend/apps/communications/guest_checkin_channex.py:91-118 | no two workers are in the provider section of one session, whose row is undistributed until the commit |
| CheckinClaim.AtMostOneSend | backend/apps/communications/guest_checkin_channex.py:84-130 | in every interleaving at most one worker per session reports a send and no two are in the provider section; the accepted messages are those in flight, sent or lost, so at most one exactly when none was lost, or one and nothing besides |
| CheckinClaim.CallRepeatsOnlyLost | backend/apps/communications/guest_checkin_channex.py:91-118 | whenever the provider is called for a session, the messages it accepted before are just the lost ones |
| CheckinClaim.LaterWorkersSkip | backend/apps/communications/guest_checkin_channex.py:101-106 | once a session is distributed it stays so, the provider is not called for it, and later workers skip |
| CheckinClaim.SentIsDistributed | backend/apps/communications/guest_checkin_channex.py:114-130 | a worker that reports a send has committed the distributed flag |
| CheckinClaim.LostCommitFreesRow | backend/apps/communications/guest_checkin_channex.py:91-124 | a claim whose commit is lost after acceptance leaves the row free and undistributed, with one more accepted message |
| CheckinClaim.TwoAreSent | backend/apps/communications/guest_checkin_channex.py:91-124 | two workers of one session do have two messages accepted when the first one's commit is lost |
| CheckinClaim.ClaimTable.ClaimRow | backend/apps/communications/guest_checkin_channex.py:91-106 | the locked read and its two early exits |
| CheckinClaim.ClaimTable.SendGuestCheckinLink | backend/apps/communications/guest_checkin_channex.py:84-130 | the procedure with others' events in all its gaps is a run that does the worker's events in order; its answer is settled by the row as it is when the lock is taken, whatever the others do afterwards |
| ClaimLaws.DistributedIff | backend/apps/communications/guest_checkin_channex.py:91-130 | at the end of any interleaving a session is distributed exactly when it was at first, some worker reported a send, or somebody marked it while nobody held it |
| ClaimLaws.AnswersAreSettled | backend/apps/communications/guest_checkin_channex.py:91-130 | after any interleaving a finished worker has heard that its session is missing exactly when it is, and a session that it sent or found distributed is |
| BillingRecipients.RecipientTable.CleanRow | backend/apps/billing/models.py:550-576 | accepts exactly the rows that meet the four rules, with a missing tenant filled in |
| BillingRecipients.RecipientTable.SaveRow | backend/apps/billing/models.py:578-608 | accepts exactly the saves that the guards and constraints allow; a refused one changes nothing |
| BillingRecipients.RunKeepsGood | backend/apps/billing/models.py:505-608 | over every run of saves: applied exactly with an invoice, ready rows complete, one open recipient per reservation, one applied per invoice, the request time fixed, applied rows frozen |
| BillingRecipients.AppliedNeedsPermission | backend/apps/billing/models.py:589-602 | an applied row is what one accepted save with allow_apply wrote |
| RecipientRules.ReadyIsComplete | backend/apps/billing/models.py:550-576 | ready means eight texts with a visible character, two country codes of two letters, and eleven digits in a Croatian tax number |
| RecipientRules.SaveDecides | backend/apps/billing/models.py:550-608 | a save is accepted exactly when its columns are in order, the stored row may be replaced and the other rows leave room; then the row is stored as saved in its reservation's tenant and nothing else changes |
| InvoiceReplacements.CaseTable.CleanRow | backend/apps/billing/models.py:784-820 | accepts exactly the cases whose invoices share the case's reservation and tenant |
| InvoiceReplacements.CaseTable.SaveRow | backend/apps/billing/models.py:822-855 | accepts exactly the saves that the guards and constraints allow |
| InvoiceReplacements.RunKeepsGood | backend/apps/billing/models.py:686-855 | over every run of saves the constraints hold, and opener, opening time and evidence stay |
| ReplacementRules.SaveDecides | backend/apps/billing/models.py:686-855 | a save is accepted exactly when the columns belong to the status, the invoices are different ones of the reservation, the stored opening is kept and the other cases leave room; then the case is stored as saved and nothing else changes |
| ReplacementRules.OpeningStays | backend/apps/billing/models.py:822-855 | over every run of saves opener, opening time and evidence stay, column by column |
| InvoiceReplacements.PartialInjection | backend/apps/billing/models.py:695-713 | completed cases are a partial injection on the invoices of one reservation |
| InvoiceReplacements.NoRepeats | backend/apps/billing/models.py:695-713 | a walk from an invoice that replaces nothing never comes back to an invoice |
| InvoiceReplacements.WalksEnd | backend/apps/billing/models.py:695-713 | such a walk is at most one longer than there are cases |
| InvoiceReplacements.RootsNeverMeet | backend/apps/billing/models.py:709-713 | walks from two different such invoices have nothing in common |
| InvoiceReplacements.WalkStaysInside | backend/apps/billing/models.py:794-820 | a walk stays in one reservation |
| InvoiceReplacements.WalksAreFreeIff | backend/apps/billing/models.py:695-713 | the walks from an invoice are free of repeats exactly when going back from it ends at an invoice that replaces nothing |
| InvoiceReplacements.ChainsAndCycles | backend/apps/billing/models.py:686-779 | every invoice lies on a chain from exactly one invoice that replaces nothing, or on a cycle, and not on both |
| InvoiceReplacements.CyclesAreAdmitted | backend/apps/billing/models.py:686-779 | the guards and constraints accept two completed cases that replace each other's invoices |
| GuestEmailIngest.GuestInbox.IngestParsedEmail | backend/apps/communications/guest_email_ingest.py:209-244 | stores a row exactly for a matched reply whose Message-ID is blank or unknown |
| GuestEmailIngest.GuestInbox.PollGuestInbox | backend/apps/communications/guest_email_ingest.py:319-405 | the poll stores rows as they come and the UID only at the end; when nothing raises, ingested, skipped and errors add up to the listed UIDs |
| GuestEmailIngest.PollsKeepUnique | backend/apps/communications/guest_email_ingest.py:209-244 | over every run of polls a non-empty Message-ID has at most one row, no row goes away and the stored UID never decreases |
| GuestEmailIngest.EveryUidIsCounted | backend/apps/communications/guest_email_ingest.py:358-396 | every UID is counted once and the rows added are those counted; a poll cut short adds at most one uncounted row |
| GuestEmailIngest.RunHasRowIff | backend/apps/communications/guest_email_ingest.py:333-405 | after any run of polls, cut short or not, a reply has a row exactly when it had one or some poll listed it, with its reservation there, before anything raised |
| GuestEmailIngest.PassedOverHasRowIff | backend/apps/communications/guest_email_ingest.py:358-396 | a reply that the stored UID moved past has a row exactly when it had one or this poll listed it with its reservation there |
| GuestEmailIngest.NothingIsPassedOver | backend/apps/communications/guest_email_ingest.py:394-396 | the stored UID passes a matched reply with a Message-ID only when its row exists |
| GuestEmailIngest.EarlyReplyIsPassedOver | backend/apps/communications/guest_email_ingest.py:358-396 | mail that cannot be fetched and a reply before its reservation are passed without a row |
| GuestEmailIngest.BadMailHoldsTheUid | backend/apps/communications/guest_email_ingest.py:394-405 | mail that raises every time keeps the stored UID where it is for as long as it is listed |
| GuestEmailIngest.ServedAgain | backend/apps/communications/guest_email_ingest.py:215-222 | mail that is listed again adds no row |
| InboxLaws.RaisedIff | backend/apps/communications/guest_email_ingest.py:358-396 | the loop is cut short exactly at a visit that raises before its row or after a new one |
| InboxLaws.RowsAre | backend/apps/communications/guest_email_ingest.py:209-244 | the rows after the loop are the old ones and, in order and as they were read, those of the reached replies with a reservation whose Message-ID is blank or on no row |
| InboxLaws.PollMovesUid | backend/apps/communications/guest_email_ingest.py:333-405 | a poll that connects, lists something and raises nothing moves the stored UID to the greatest of itself, where it began and what was listed; any other leaves it |
| InboxLaws.ErrorsAre | backend/apps/communications/guest_email_ingest.py:358-396 | when nothing raises the errors are the mail that could not be fetched |
| LanguagePolicy.NormalizeTwice | backend/apps/communications/guest_language_constants.py:214-217 | normalising a language code is idempotent |
| LanguagePolicy.StandardNormalizes | backend/apps/communications/guest_language_constants.py:214-217 | the repository's normaliser is one that the results below are about |
| LanguagePolicy.FixedPointIff | backend/apps/communications/guest_language_policy.py:129-244 | feeding the chosen language back chooses it again exactly when the reply language is not looked at, the first one was accepted, or the detected, else stored, code is not an accepted one in unnormalised form |
| LanguagePolicy.SloppyIsStored | backend/apps/communications/guest_language_policy.py:185-204 | only the stored conversation language or an unsure detection can be chosen in such a form |
| LanguagePolicy.FixedPoint | backend/apps/communications/guest_language_policy.py:129-244 | with normalised stored and detected codes the choice is a fixed point on every path |
| LanguagePolicy.SettlesInTwo | backend/apps/communications/guest_language_policy.py:129-244 | feeding back once more always settles |
| LanguagePolicy.UpperCaseWouldNotBeFixed | backend/apps/communications/guest_language_policy.py:195-204 | a stored upper-case code, which no conversation has, would be chosen as it is and come back in lower case |
| LanguagePolicy.FixedPointInUse | backend/apps/communications/conversation_language_store.py:42-74 | with the language that any messages of a conversation left stored and the detector's answer the choice is a fixed point |
| LanguagePriority.ChooseIsFirst | backend/apps/communications/guest_language_policy.py:129-244 | the choice is the first offer in the order override, confident detection, reply language, detection, conversation, country, tenant, property, English, and which of them a proactive choice skips |
| LanguagePriority.CountrySpeaks | backend/apps/communications/guest_language_policy.py:51-84 | which countries are written to in each language; everywhere else it is English |
| LanguagePriority.NormalizeIs | backend/apps/communications/guest_language_constants.py:214-217 | a normalised code is what stands before the first dash, trimmed and in lower case |
| LanguagePriority.StoredIsLast | backend/apps/communications/conversation_language_store.py:42-74 | a conversation keeps the language of its last message that was told with confidence, cut to eight characters |
| ParkingReply.SpokenIs | backend/apps/communications/guest_parking_inbound.py:35-39 | the text picked from a dictionary is in the language asked for exactly when the dictionary speaks it, and else in English when there is English |
| ParkingTexts.TextIsPicked | backend/apps/communications/guest_parking_inbound.py:35-39 | a dictionary says its first text in the language asked for, else its first English one, else its first |
| ParkingTexts.BaseIs | backend/apps/communications/guest_parking_inbound.py:35-36 | the language asked for is what stands before the dash, in lower case, English for none |
| ParkingTexts.TemplateText | backend/apps/properties/guest_info.py:484-613 | the template is the heading and the details that say something, else the stored text, behind the prefix when there is one |
| ParkingTexts.ReplyIs | backend/apps/communications/guest_parking_inbound.py:125-205 | in which language a reply is recorded, whether it is the model's text or the template, and how greeting, name, body and sign-off are put together |
| ParkingReply.RenderedLanguages | backend/apps/properties/guest_info.py:484-613 | the template reply is written in just the languages that its heading, phrases, stored text and prefix are picked in |
| ParkingReply.ModelReplyIff | backend/apps/communications/guest_parking_inbound.py:52-87 | a reply with the model's text is in one language exactly when whatever greeting, sign-off and, without a booker's name, default name say is in the recorded language |
| ParkingReply.TemplateReplyIff | backend/apps/communications/guest_parking_inbound.py:120-205 | a reply with the template, on both paths to it, is in one language exactly when the dictionaries of its body and of its frame are picked in one language |
| ParkingReply.AllOrNone | backend/apps/communications/guest_parking_inbound.py:35-39 | dictionaries with an English text are picked in one language exactly when all or none of them speak the one asked for |
| ParkingReply.HouseModelReply | backend/apps/communications/guest_parking_inbound.py:52-80 | with the model's text it is one language exactly when the frame speaks it |
| ParkingReply.HouseTemplateAgrees | backend/apps/communications/guest_parking_inbound.py:52-80 | with a template whose parts speak the same languages it is one language exactly when template and frame both speak it, or neither does |
| ParkingReply.FactsReplyIff | backend/apps/properties/guest_info.py:484-613 | with the keys of the repository that is every language but Slovak, and without a booker's name also not German, Spanish and French |
| ParkingReply.SlovakIsMixed | backend/apps/communications/guest_parking_inbound.py:120-153 | a sure Slovak question gets a reply that is not in one language |
| ParkingReply.ItalianIsMixed | backend/apps/communications/guest_parking_inbound.py:156-205 | a sure Italian question with the model's Italian text gets a reply that is not in one language |
| ParkingReply.ModelTextIsUsedIff | backend/apps/communications/guest_parking_inbound.py:174-199 | the model's text is used exactly when there is one, and its claim is accepted and not overruled by an override or a confident detection |
| ParkingReply.ModelTextIsKept | backend/apps/communications/guest_parking_inbound.py:174-205 | an accepted claim keeps the model's text in the claimed language unless an override or a confident detection names another, and then the reply is recorded in another |
| DocumentOcr.ChunksConcat | backend/apps/ai/document_ocr.py:274-275 | the chunks are the orphan indices cut into non-empty pieces of at most six |
| DocumentOcr.RunOrphanDocumentOcr | backend/apps/ai/document_ocr.py:261-318 | the chunk loop merges the replies as specified |
| DocumentOcr.OnlyOrphans | backend/apps/ai/document_ocr.py:294-302 | every merged image carries an orphan index |
| DocumentOcr.OrphansArePermuted | backend/apps/ai/document_ocr.py:294-302 | with one row per local index the merged indices are a permutation of the orphan indices |
| OcrLaws.PhotoOfChunk | backend/apps/ai/document_ocr.py:274-275 | photo number l of chunk k is orphan number 6 k + l |
| OcrLaws.SecondPassIs | backend/apps/ai/document_ocr.py:261-318 | the pass fails exactly when a call does or an index cannot be read; else it gives, chunk after chunk, the images whose index names a photo of the chunk and all persons that are dicts, unchanged but for the numbers of their photos |
| PersonMerge.MergePersons | backend/apps/ai/document_ocr.py:321-352 | the two loops with their sets give the specified list |
| PersonMerge.MergeKeepsPrefix | backend/apps/ai/document_ocr.py:337-350 | the known persons stay a prefix, and nothing appended repeats a document number or, without one, a surname |
| PersonMerge.MergingAgain | backend/apps/ai/document_ocr.py:337-350 | merging the same extras again appends exactly the unnamed ones |
| PersonMerge.MergingAgainIsNoOp | backend/apps/ai/document_ocr.py:337-350 | so it is a no-op exactly when every extra has a document number or a surname |
| OcrLaws.DictsAre | backend/apps/ai/document_ocr.py:321-335 | the persons of a list are its dicts, in order |
| OcrLaws.AppendedAre | backend/apps/ai/document_ocr.py:337-350 | appended is, of each further person in turn, just the one whose document number or, without one, surname is not there yet |
| OcrLaws.StandardKeys | backend/apps/ai/document_ocr.py:321-335 | two surnames are one exactly when they agree up to outer whitespace and case |

## Left out

- CanonicalStore.HeuristicMatch: the merge rule itself is not part of this model; any rule is allowed.
- CanonicalBackfill.ResolveGroup: the anomalies `source_without_raw` and `source_without_message` are not modelled, because the table's constraints exclude such sources.
- BackfillRows.BackfillRun.FindCrossing: the crossing messages are reported in order of id, where the program iterates over a set.
- BackfillRows.BackfillRun.ScanTenant: the informational counts (`_collect_info_counts`) and the sets that only they read are not modelled.
- RecordRace.InterleavingIsSerial: backfill steps are atomic, because the program resolves groups before it locks the conversation; nothing is claimed for live writes in the middle of a step.
- CanonicalStoreLaws.RecordKeepsValid: gaps in primary keys after rolled-back inserts are not modelled.
- CanonicalTimeline.TimelinesByReservation: sources of one message are listed by id, where the program leaves their order to the database.
- CanonicalRead.CutoffIsFixed: the columns that only document a command (who ran it, snapshots) are not modelled.
- BodyFormat.NormalizeTimelineNewlines: Unicode whitespace beyond the four characters is not modelled.
- BodyReflow.OutboundIsIdempotent: stripping of Booking.com boilerplate, which is not idempotent, is not part of outbound text.
- BillingRecipients.RunKeepsGood: saves write all fields and are taken one after the other; `save(update_fields=...)`, queryset updates and two saves that read the same previous row are not modelled.
- InvoiceReplacements.RunKeepsGood: the same holds for replacement cases; that a completed case stays completed is left to services that are not part of this model.
- GuestEmailIngest.PollsKeepUnique: one tenant is modelled and polls do not overlap; parsing of mail is abstract.
- LanguagePolicy.FixedPoint: the stored language and the detector's answer stay the same between the two choices; how the detector scores a text is not part of this model.
- ParkingReply.TemplateReplyIff: which facts a property has is a parameter, as is how a name is filled into a greeting. The checks that come before the language (parking only, already answered today) are not modelled.
- ParkingReply.SpokenIs: for a dictionary without English the helper of the inbound module takes the first text even when it is empty, that of the property texts the first that is not; the second one is modelled, and the dictionaries of the inbound module all have English.
- CheckinClaim.ClaimTable.SendGuestCheckinLink: the checks before the lock and the creation of the session are not modelled.
- DocumentOcr.RunOrphanDocumentOcr: the image bytes and MIME types passed to the call are not modelled; an index without an image is one of the ways a call can raise.
- Invoice issue and fiscalization, sending of messages, templates, translation and every HTTP interface are left out.
