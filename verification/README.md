# Verification model of Musicata

Musicata is a music server with managed playback hosts. This project models the parts of it that have
to survive faults, interleavings and reordering, and proves in Dafny what they are for. Nothing here
runs the program; every statement is about the model, which follows the code branch by branch.

| module | what it models |
|---|---|
| `PlayerFiles`, `Soundcard`, `ManagedHost`, `ManagedRuns`, `RevisionProtocol` | the crash-safe change of an audio device: a journal record, two files, a service, and the revisions server and host agree on |
| `ArtworkPins`, `ArtworkPinRuns`, `ArtworkAlias`, `ArtworkMaintenance`, `ByteTotals` | the content-addressed artwork cache, once as interleavings at the granularity of its mutation lock and once as one pass over the disk |
| `MpdOutputs`, `MpdSelection` | selecting one MPD output on a server that may renumber outputs, refuse commands or never answer |
| `AudioTap` | the sequence lock between the audio thread and its readers, one step a load or store |
| `Cascades`, `Equaliser`, `EqualiserBuild`, `Cookbook`, `OppositeBands` | the biquad equaliser over exact reals, the composition of profiles, the coefficient formulas and what they do to a signal |
| `CorrectionPatch`, `CorrectionShown`, `CorrectionClient` | the patch for a CamillaDSP processor, its confirmation, and what a confirmed processor plays |
| `LibraryModel`, `LibraryAggregation`, `LibraryAssembly`, `LibraryAssemblyLaws`, `LibraryCovers`, `LibraryRegroup`, `LibraryMerge`, `FreshIds`, `Counting` | folding scanned tracks into a library, regrouping it and merging libraries |
| `IdleGate`, `LineReader` | cutting USB power to an idle DAC, and reading status lines under a byte budget |
| `PacketDigest`, `FlatMaps` | the identity digest of an encoded stream |
| `RateLimiter` | the shared request limiters |
| `Basics`, `Decimal`, `Sorting`, `Mapping` | options, results, decimal numbers, a stable sort and element-wise maps |

Objects whose methods change fields are classes, and their methods are proved against functions of
the old state. What a call outside the program may do is a nondeterministic choice with the results
the code branches on; a ghost `faulted` flag or a count of faults lets the same method also promise
what happens when nothing fails. Protocols of several parties are predicates over one step, and
the main results speak of whole runs.

Conventions: hashes (`digest`, `stable_id`, object names) are injective; `atomic_write` is one step, while
the copy in the rollback of `apply_files` may be cut short and leave any value; clocks are read as
numbers and, unless a statement says so, may go back; floating point is exact; memory is sequentially
consistent; sequence numbers and revisions do not overflow.

Where the code and its documentation part, or the code does less than one might expect:

- A pin whose selection reaches the database only after a maintenance pass has taken its snapshot can
  lose its alias: the snapshot is not read again under the lock. `SurvivalBound` gives the exact margin.
- Live pins are said never to be evicted. The object of a selected pin is, when a pass cannot read the pin's alias;
  that of a young one, when its file time cannot be read or lies ahead of the clock. `Maintain` and `PinSurvives`
  state what has to be readable, and `UnreadPinLosesObject` and `AheadPinLosesObject` are cases.
- Only a missed deadline makes the MPD client reconnect for a rollback. When the server closes the connection
  during the change, the rollback is tried on the closed connection and fails. `SelectOutput` says exactly
  when one fault is recovered from, and `DropLeavesSilence` is a case.
- The composition of two profiles is not quite playing them in sequence: a profile without bands whose
  preamp is below the machine epsilon is dropped alone but not when composed. `CompositionCondition` is exact.
- The comment in the patch generator says reserved filter names are touched only if the previous marked
  stage owned them. A filter of such a name that no stage uses is replaced all the same, and correcting
  again then removes it. `CorrectTwice` says exactly when this does not matter, and `UnusedReservedFilter`
  is a case. A filter that the marked stage names is removed even if another stage names it too (`ForeignFilter`).
- The comments of the request limiters speak of request starts; what is kept apart are the granted
  start times, since a thread may wake late.
- The id of an album is made of artist key and title joined by two colons. The key of an artist without a
  letter or digit is its name with its colons, which can be mistaken for the separator: `SameAlbumMeaning` says
  for which keys this cannot happen, and `ColonsMixAlbums` is a case.
- A probe of the service that fails for any reason reads as inactive or disabled, so the journal may
  record less than was running; the runs allow it and restore what was recorded.

## Model

| member | source | states |
|---|---|---|
| `Soundcard.SetSoundcardRoundTrip` | packaging/manage_player.py:185-190 | after the edit the unit has exactly one soundcard value, the chosen route, wherever the option stands in the text; writing the old route back restores the unit character for character |
| `Soundcard.OnlyStart` | packaging/manage_player.py:185-190 | no new soundcard option can come into being across the seams of the replacement |
| `Soundcard.RouteMeaning` | packaging/manage_player.py:97-103 | a text is a route exactly when it is `plughw:CARD=`, a non-empty name of letters, digits, underscores and hyphens, `,DEV=` and decimal digits |
| `Soundcard.CurrentMeaning` | packaging/manage_player.py:185-190 | the value found is the recorded one exactly when one option of the text, and no other, starts a value and that value is it |
| `Soundcard.ReadsWritten` | packaging/manage_player.py:185-190 | the value written after the flag in a unit that has no other such option is read back |
| `PlayerFiles.Machine.AtomicWrite` | packaging/player.py:128-138 | a write leaves the whole new text or the whole old file, and says so |
| `PlayerFiles.Machine.InstallAndStart` | packaging/player.py:159-166 | however it ends, each file of the bundle is wholly old or wholly new and no other file changes; success means all new and the service running |
| `PlayerFiles.Machine.Rollback` | packaging/player.py:167-194 | a rollback that runs through with no copy cut short leaves exactly the files of before, and a clean one the service flags too; a crash leaves each file old or new unless a copy was cut short; with hardware to restore after the service was started, no file is put back before it is restored, and a rollback that stops short of that leaves every file new |
| `PlayerFiles.Machine.ApplyFiles` | packaging/player.py:141-194 | all or nothing: success means every file installed and the service restarted and checked; failure with a complete rollback means the files of before, failure to restore hardware means every file new; a fault-free call of an acceptable bundle succeeds |
| `PlayerFiles.InstallLookup` | packaging/player.py:159-161 | installing a bundle gives each of its paths its text and touches no other path |
| `ManagedHost.PlanMatches` | packaging/manage_player.py:297-303 | a planned change keeps the recorded unit digest and output of the configuration in step with the unit |
| `ManagedHost.PlanNamesDevice` | packaging/manage_player.py:290-309 | the planned change is for the one available device of the requested id in the inventory the request was made for; unit and configuration get its route and nothing else changes |
| `ManagedHost.PlanMeaning` | packaging/manage_player.py:290-303 | a change is planned exactly when the inventory is the one requested, the device of the requested id is available and the only one, its route is a route, and the recorded output is the one soundcard value of the unit; then the planned files are the old ones with that value, the recorded output and the unit digest replaced |
| `ManagedHost.Manager.RecoverInterruptedApply` | packaging/manage_player.py:232-273 | recovery either refuses with the files untouched, or puts the previous pair and service state back and only then clears the journal; it refuses when a file is missing or is neither the previous nor the intended one; a failure keeps the journal; it succeeds when nothing fails and every file is one of the two |
| `ManagedHost.Manager.ApplySelection` | packaging/manage_player.py:281-330 | a selection is refused before anything is written, or journalled first and then committed, rolled back or left journalled; without faults it is applied for every request that selects one available device with a route by a current inventory, whichever device that is, and refused for every other |
| `ManagedHost.Manager.RecoverFailedAttempt` | packaging/manage_player.py:316-324 | after a failed installation the previous pair is back and the attempt is recorded as failed, or the journal stays |
| `ManagedHost.Manager.Commit` | packaging/manage_player.py:325-330 | the committed state names the revision as applied and has no journal record |
| `ManagedHost.Manager.RecordPreflightFailure` | packaging/manage_player.py:345-353 | a refusal is recorded once, only for a valid revision newer than the last attempt, and always then unless a write fails |
| `ManagedHost.Manager.LocalRequest` | packaging/manage_player.py:356-386 | one request recovers first and then acts; stopped at any write it leaves one of the listed states; without faults the outcome is exactly the recovery, then the selected device applied and everything else unchanged, or the refusal recorded, or nothing |
| `ManagedRuns.RecoverKeepsInv` | packaging/manage_player.py:232-273 | recovery, finished or stopped at any write, keeps the invariant of all runs |
| `ManagedRuns.LocalKeepsInv` | packaging/manage_player.py:356-386 | so does a whole request, whatever it is and however it ends |
| `ManagedRuns.QuiescentPairIsApplied` | packaging/manage_player.py:232-330 | in every run of requests with crashes between any two writes, whenever no journal record remains the unit and configuration are exactly the pair of the applied revision or the original pair, with matching digest and output |
| `ManagedRuns.InterruptedRecoveryAgrees` | packaging/manage_player.py:232-273 | recovery interrupted any number of times and run again ends in the state, files and service one uninterrupted recovery gives |
| `ManagedRuns.ForeignFilesAreNotOverwritten` | packaging/manage_player.py:247-252 | if a file is missing, or the unit or the configuration is neither the previous nor the intended one, files and journal record stay, for every request and however it ends |
| `ManagedRuns.ForeignFilesStay` | packaging/manage_player.py:247-252 | over whole runs of requests and edits by others: from such an edit on, and as long as every further edit is one, the files are those of the last edit, the journal stays and nothing is attempted |
| `ManagedRuns.LocalKeepsRevisions` | packaging/manage_player.py:286-330 | attempted and applied revisions never go back, stay ordered, and move only to the request's own revision |
| `RevisionProtocol.StepKeepsInv` | crates/musicata-server/src/managed_players.rs:182-279 | each step of server, network and host keeps applied <= attempted <= desired and every report in flight acceptable |
| `RevisionProtocol.RunMovesForward` | crates/musicata-storage/src/lib.rs:3906-3917 | attempted and desired revisions, and both revisions of the stored report, never move back in a run |
| `RevisionProtocol.SaveMeaning` | crates/musicata-storage/src/lib.rs:3906-3917 | a report is stored exactly when none is stored yet or the stored one is newer in neither revision; otherwise the stored one stays |
| `RevisionProtocol.StoredIsNewest` | crates/musicata-storage/src/lib.rs:3906-3917 | in every run, after a report has arrived the stored one is at least as new in both revisions, for good |
| `RevisionProtocol.RevisionSafety` | packaging/manage_player.py:418-438 | in every run with delayed, repeated or lost messages: the revisions stay ordered, no revision is attempted twice, and every report the host ever sent passes the server's revision check whenever it arrives |
| `ArtworkPins.StepKeepsInv` | crates/musicata-server/src/artwork.rs:377-433 | every interleaved step of stores, selections, time, restarts and a maintenance pass, with any read, write or removal failing, keeps the invariant: no protected alias loses its file or its object |
| `ArtworkPins.AliasWriteKeepsInv` | crates/musicata-server/src/artwork.rs:403-422 | the alias is published while its object is there and its write is about to be remembered |
| `ArtworkPins.EvictKeepsInv` | crates/musicata-server/src/artwork.rs:550-580 | an object evicted under the write side belongs to no protected alias |
| `ArtworkPins.RemoveKeepsInv` | crates/musicata-server/src/artwork.rs:462-476 | a condemned alias is only removed when it is still stale under the write side, so never while its path is protected |
| `ArtworkPinRuns.PinSurvives` | crates/musicata-server/src/artwork.rs:377-478 | once a pinned store has returned, alias and object both exist for as long as the path is inside the grace period or selected, in particular selected when the running pass began, and no pass failed to read the pin or its age, unless this process wrote it within the grace period |
| `ArtworkPinRuns.LateSelectionLosesPin` | crates/musicata-server/src/artwork.rs:435-478 | a run in which a selection stored too late for the pass that is running loses its pin, although it is selected when the alias is removed |
| `ArtworkPinRuns.SurvivalBound` | crates/musicata-server/src/artwork.rs:52 | exactly when every pin that passes can read survives: the delay of the selection and the length of a pass together do not exceed the grace period by more than a tick |
| `ArtworkPinRuns.UnreadPinLosesObject` | crates/musicata-server/src/artwork.rs:720-746 | a run in which a pin selected before it was written keeps its alias and loses its object, because one pass after the grace period cannot read the alias |
| `ArtworkAlias.AliasRoundTrip` | crates/musicata-server/src/artwork.rs:622-660 | an alias with one-line fields reads back as itself exactly when its components, hash and numbers are acceptable |
| `ArtworkAlias.SplitLines` | crates/musicata-server/src/artwork.rs:638-650 | terminated lines split into exactly the fields they were written from |
| `ArtworkAlias.ParseMeaning` | crates/musicata-server/src/artwork.rs:622-660 | a text is read as an alias exactly when its lines, with or without a last line end, are the version line, key, extension, hash and length, and perhaps a last access, which is zero when missing, all of them acceptable |
| `ArtworkAlias.WellFormedMeaning` | crates/musicata-server/src/artwork.rs:622-637 | an alias is well formed exactly when key, extension and hash consist of the allowed characters and both numbers fit in 64 bits |
| `ArtworkMaintenance.ArtworkCache.JudgePins` | crates/musicata-server/src/artwork.rs:455-478 | of the pins whose alias was read, exactly those that are selected, or whose age could be read and is below the grace period, make their hash live; only an unselected pin still stale on a second look goes, and without faults each of those does; an unselected pin whose time cannot be read or lies ahead of the clock is neither |
| `ArtworkMaintenance.ArtworkCache.CollectPins` | crates/musicata-server/src/artwork.rs:720-746 | a pin whose alias cannot be read or does not parse is passed over; without faults no other is |
| `ArtworkMaintenance.LiveWithoutFaults` | crates/musicata-server/src/artwork.rs:456-478 | without faults an object is live exactly when a pin of it is selected or was written at or before now and within the grace period |
| `ArtworkMaintenance.StaysWithoutProtecting` | crates/musicata-server/src/artwork.rs:456-474 | a pin is neither removed nor protects its object exactly when it is unselected and its time lies ahead of the clock, or could not be read and is not stale |
| `ArtworkMaintenance.OnlyLiveObjectsStay` | crates/musicata-server/src/artwork.rs:520-580 | once the automatic bytes are down to none, an object with content that is still there is live |
| `ArtworkMaintenance.AheadPinLosesObject` | crates/musicata-server/src/artwork.rs:456-478 | a pin whose file time is ten seconds ahead of the clock keeps its file and loses its object in a fault-free pass after a restart |
| `ArtworkMaintenance.ArtworkCache.Count` | crates/musicata-server/src/artwork.rs:479-549 | the scan charges each automatic byte once, takes over every pending access, orders objects by the greatest of the uses of their aliases and the pending access, then by file time, and removes old-format files only while over the budget |
| `ArtworkMaintenance.ArtworkCache.StoreAccesses` | crates/musicata-server/src/artwork.rs:497-515 | without faults every ordinary alias ends with the greater of its stored use and the access that was waiting for its object, and nothing else in it changes |
| `ArtworkMaintenance.ArtworkCache.EvictObjects` | crates/musicata-server/src/artwork.rs:550-580 | evicted objects are a prefix of the automatic ones in order of use, never live or recently pinned, and the running total is what is really left |
| `ArtworkMaintenance.ArtworkCache.TrimLiveAliases` | crates/musicata-server/src/artwork.rs:581-598 | ordinary aliases of live objects go least recently used first and only over the budget |
| `ArtworkMaintenance.ArtworkCache.DropOrphans` | crates/musicata-server/src/artwork.rs:599-612 | no ordinary alias is left without its object, and no other is removed |
| `ArtworkMaintenance.ArtworkCache.Maintain` | crates/musicata-server/src/artwork.rs:438-618 | whatever fails, a pin goes only when it was read, unselected and stale, and the objects of all pins that were read and are selected, or whose readable age is below the grace period, and of recently recorded pins stay; without faults every pin that parses was read, the automatic bytes end within the budget, in least-recently-used order; within the budget nothing is evicted; no scanned alias is left without its object; a pass that ends early has removed stale pins at most |
| `ArtworkMaintenance.BudgetMet` | crates/musicata-server/src/artwork.rs:520-612 | the running total that stops the loops really bounds the bytes on disk |
| `ArtworkMaintenance.OrderMet` | crates/musicata-server/src/artwork.rs:516-578 | an evicted object was used no later than any automatic object that stayed, where a use is the greatest of the stored uses and the pending access, whatever accesses are pending |
| `ArtworkMaintenance.TrimMet` | crates/musicata-server/src/artwork.rs:581-598 | an ordinary alias that went while its object stayed was used, by the same measure, no later than any of a live object that stayed |
| `MpdOutputs.ParseOutputs` | crates/musicata-server/src/mpd.rs:333-393 | the loop over the reply computes the fold over its pairs, with the first error deciding |
| `MpdOutputs.OutputsRoundTrip` | crates/musicata-server/src/mpd.rs:333-393 | a reported list is read back as sent exactly when it is complete and within the limit |
| `MpdOutputs.ParsedMeaning` | crates/musicata-server/src/mpd.rs:333-393 | a reply of any pairs becomes a list exactly when every id is a number, every state a zero or one, no field comes before the first id, there are at most sixty-four ids, and every id is followed by a name and a plugin before the next; an output then is what the last pair of each field between its id and the next says, and pairs with other keys are passed over |
| `MpdSelection.OnlyEnabledMeaning` | crates/musicata-server/src/mpd.rs:421-430 | with unique identities the check holds exactly when the enabled set is the requested identity alone |
| `MpdSelection.SameEnabledMeaning` | crates/musicata-server/src/mpd.rs:436-446 | with unique identities, equal lengths and the member-wise check hold exactly when identity sets and enabled sets are equal |
| `MpdSelection.UniqueOutputMeaning` | crates/musicata-server/src/mpd.rs:393-403 | the lookup finds the one output of an identity exactly when there is one |
| `MpdSelection.Connection.Switch` | crates/musicata-server/src/mpd.rs:123-134 | with stable ids, at every moment the enabled outputs are among the original ones or the target alone |
| `MpdSelection.Connection.Change` | crates/musicata-server/src/mpd.rs:123-142 | accepted only after a readback with unique identities in which exactly the target is enabled |
| `MpdSelection.Connection.RestoreOutputs` | crates/musicata-server/src/mpd.rs:185-206 | Ok only after a readback equal to the snapshot in identities and enabled set; from any state over the same identities one fault-free pass reaches the original enabled set |
| `MpdSelection.Connection.TurnOff` | crates/musicata-server/src/mpd.rs:188-193 | outputs that must be off go off before anything goes on, so the promise of the apply phase still holds |
| `MpdSelection.Connection.TurnOn` | crates/musicata-server/src/mpd.rs:194-199 | then the outputs that must be on go on, to exactly the original enabled set |
| `MpdSelection.Connection.RollbackOutputs` | crates/musicata-server/src/mpd.rs:212-228 | after an unanswered command the restoration runs on a fresh connection and, without a further fault, puts everything back; on a connection that was closed it fails, and nothing reaches the server |
| `MpdSelection.Connection.SelectOutput` | crates/musicata-server/src/mpd.rs:115-162 | for any refusals, renumbering and lost connections: Ok only after a readback with exactly the requested output enabled, "restored" only after one equal to the first snapshot; a change cut off by closing the connection is never put back; with stable ids no fault means success, one fault ends in a failed rollback exactly when it closed the connection after the snapshot had been read, and never are two speakers on that were not before |
| `MpdSelection.DropLeavesSilence` | crates/musicata-server/src/mpd.rs:212-236 | with the old output turned off and the connection closed before the new one is on, the rollback fails and no output is left on |
| `AudioTap.StepKeepsInv` | crates/musicata-core/src/pcm_dsp.rs:227-271 | every load and store of one writer and any readers keeps the invariant that a standing sequence number means unchanged slots |
| `AudioTap.LoadKeepsInv` | crates/musicata-core/src/pcm_dsp.rs:249-271 | a final load that returns values does so while no write is in progress |
| `AudioTap.ReadIsLatest` | crates/musicata-core/src/pcm_dsp.rs:227-271 | in every interleaving a read that gives values gives all four of the latest completed publication, with no clear since and none missed that was complete when the read began |
| `AudioTap.EqualSequenceEqualValues` | crates/musicata-core/src/pcm_dsp.rs:249-271 | two reads by any readers with equal sequence numbers give equal values |
| `AudioTap.UndisturbedRead` | crates/musicata-core/src/pcm_dsp.rs:249-271 | a read the writer leaves alone gives values exactly when a publication was not cleared since |
| `Cascades.FilterSplit` | crates/musicata-core/src/pcm_dsp.rs:158-169 | one long cascade gives the samples of two short ones in a row, on any signal |
| `Cascades.FilterScales` | crates/musicata-core/src/pcm_dsp.rs:36-45 | a cascade of homogeneous stages is homogeneous over whole signals, memory included |
| `Cascades.PlayByChannel` | crates/musicata-core/src/pcm_dsp.rs:158-169 | the two channels of a chain never touch each other |
| `Equaliser.StereoEq.ProcessFrame` | crates/musicata-core/src/pcm_dsp.rs:158-169 | the in-place loops over both channels give the frame and the filter memory of the functional cascade |
| `Equaliser.StereoEq.Reset` | crates/musicata-core/src/pcm_dsp.rs:172-176 | every filter memory is cleared, coefficients and gain stay |
| `Equaliser.ResetForgets` | crates/musicata-core/src/pcm_dsp.rs:172-176 | after any signal a reset equaliser is the one that was built |
| `Equaliser.DifferenceEquation` | crates/musicata-core/src/pcm_dsp.rs:36-45 | over any signal a biquad gives the samples of the direct-form difference equation of its coefficients |
| `Equaliser.OneFilterEach` | crates/musicata-core/src/pcm_dsp.rs:138-149 | a valid profile gets one filter a band, in order, none skipped |
| `EqualiserBuild.FromProfileMeaning` | crates/musicata-core/src/pcm_dsp.rs:120-155 | a profile is played exactly when it satisfies the written-out limits, has no room and every band is below half the rate; both channels then have the profile's gain and for each band, in order, a filter at rest with the coefficients of its own kind at its frequency, gain and Q |
| `EqualiserBuild.ComposeMeaning` | crates/musicata-core/src/dsp.rs:47-104 | two profiles compose exactly when both satisfy the written-out limits, the listening one has no room, and gain and number of bands of the sum stay within them; the result has the correction's name, the sum of the decibels and the correction's bands followed by the others |
| `Cookbook.BandGain` | crates/musicata-core/src/pcm_dsp.rs:57-107 | with the formulas of the code, a peaking band plays a tone of its own frequency at exactly its decibels and leaves both ends of the spectrum alone; a low shelf plays a constant signal at its decibels and leaves an alternating one alone, a high shelf the other way round |
| `OppositeBands.OppositeRestores` | crates/musicata-core/src/pcm_dsp.rs:57-107 | a band followed by one of the same kind, frequency and Q with the decibels negated gives back every signal, sample for sample |
| `OppositeBands.MirrorGivesBack` | crates/musicata-core/src/pcm_dsp.rs:138-169 | so do any bands followed by their opposites in reverse |
| `OppositeBands.MirroredProfileIsSilent` | crates/musicata-core/src/dsp.rs:79-104 | a correction composed with a listening profile that mirrors it leaves every signal as it came |
| `Equaliser.BiquadsHomogeneous` | crates/musicata-core/src/pcm_dsp.rs:36-45 | amplifying a biquad's memory and input amplifies its output and next memory |
| `Equaliser.ComposeAccepts` | crates/musicata-core/src/dsp.rs:47-104 | composition is refused for a bad part, a room impulse in the listening part, too much preamp or too many bands, and for nothing else |
| `Equaliser.ComposedPlaysInSequence` | crates/musicata-core/src/dsp.rs:79-104 | from reset and on any signal, the composed equaliser sounds like the correction followed by the listening adjustment, if the decibels dropped as negligible agree |
| `Equaliser.CompositionCondition` | crates/musicata-core/src/pcm_dsp.rs:120-155 | and for every signal only then: the exact condition under which composing is playing in sequence |
| `OppositeBands.ComposedExactly` | crates/musicata-core/src/pcm_dsp.rs:57-155 | with the formulas of the code that condition is exact for every pair of profiles that can be played, since no filter below half the rate has a zero leading coefficient |
| `Equaliser.TwoNegligiblePreamps` | crates/musicata-core/src/pcm_dsp.rs:134-136 | the case that fails: two preamps below the machine epsilon, each dropped alone, are played when composed |
| `CorrectionPatch.GenerateFilters` | crates/musicata-server/src/mpd_dsp.rs:56-80 | the loop makes the gain and one filter a band, in order |
| `CorrectionPatch.NewFiltersMeaning` | crates/musicata-server/src/mpd_dsp.rs:56-80 | no two generated names collide: every band has its own filter under its own number, with the fixed slope for shelves |
| `CorrectionPatch.CandidatePipeline` | crates/musicata-server/src/mpd_dsp.rs:44-82 | the candidate runs every foreign stage in its old order and then one marked stage, on both channels, with the gain and then each band in the profile's order |
| `CorrectionPatch.BuildPatch` | crates/musicata-server/src/mpd_dsp.rs:14-100 | the in-place edits give the candidate and the patch, or the first of the listed refusals |
| `CorrectionPatch.MergedMatches` | crates/musicata-server/src/mpd_dsp.rs:131-148 | a patch that removes nothing is found by the confirmation test in whatever it was merged into |
| `CorrectionShown.MatchesMeaning` | crates/musicata-server/src/mpd_dsp.rs:131-148 | the test passes exactly when along every path of keys and indices the answer has what is expected there: the same number, text or other scalar, a list of the same length, an object with at least its members |
| `CorrectionShown.CandidatePlays` | crates/musicata-server/src/mpd_dsp.rs:44-82 | the candidate has, under the name of every band, a filter of its own kind with exactly its frequency, gain and Q, the profile's gain in front, and one stage that runs them in order on both channels |
| `CorrectionShown.ConfirmedPlays` | crates/musicata-server/src/mpd_dsp.rs:131-148 | so has every configuration that passes the confirmation test against a candidate |
| `CorrectionShown.ConfirmedFilters` | crates/musicata-server/src/mpd_dsp.rs:198-211 | and its filters are the generated ones and those of before that no marked stage named, and no others |
| `CorrectionShown.PatchableMeaning` | crates/musicata-server/src/mpd_dsp.rs:14-56 | a patch is made exactly for a processor with a sample rate, two playback channels, a list of stages and a map of filters, no unmarked stage of which names a reserved filter, and a profile that can be played at that rate |
| `CorrectionShown.OwnedMeaning` | crates/musicata-server/src/mpd_dsp.rs:32-43 | the names removed are exactly those some marked stage names |
| `CorrectionShown.ForeignMeaning` | crates/musicata-server/src/mpd_dsp.rs:44 | the stages kept are exactly those without our description, in their order |
| `CorrectionPatch.FiltersConfirmed` | crates/musicata-server/src/mpd_dsp.rs:86-95 | merging the filter patch leaves exactly the candidate's names, and filters not generated as they were |
| `CorrectionPatch.PatchIsConfirmed` | crates/musicata-server/src/mpd_dsp.rs:86-100 | merged as a JSON Merge Patch, the patch passes the confirmation test against the candidate, with devices and every foreign stage, in order, untouched |
| `CorrectionPatch.CorrectTwice` | crates/musicata-server/src/mpd_dsp.rs:29-100 | correcting twice asks for what correcting once with the last profile asks for, exactly when no generated filter name was already there unowned |
| `CorrectionPatch.OwnedReservedIsEnough` | crates/musicata-server/src/mpd_dsp.rs:45-55 | in particular when the marked stage owns every reserved filter |
| `CorrectionPatch.UnusedIsReplaced` | crates/musicata-server/src/mpd_dsp.rs:45-100 | an accepted configuration whose unused filter of a reserved name is replaced by a correction with one band |
| `CorrectionPatch.UnusedReservedFilter` | crates/musicata-server/src/mpd_dsp.rs:45-100 | and a correction without bands after that one asks for another configuration than it does alone, which keeps the filter |
| `CorrectionPatch.ForeignFilter` | crates/musicata-server/src/mpd_dsp.rs:44-95 | a filter named by a stage of others is the same before and after, in the candidate and in the merged configuration, exactly when no marked stage names it; otherwise it is gone |
| `CorrectionPatch.SharedFilterIsRemoved` | crates/musicata-server/src/mpd_dsp.rs:44-95 | a configuration in which it is gone though the other stage that names it stays |
| `CorrectionClient.AwaitConfirmation` | crates/musicata-server/src/mpd_dsp.rs:191-211 | the polling loop confirms only a read that shows the candidate on unchanged devices while the processor is running; it fails when devices changed, and otherwise only after every allowed poll showed something else or a request failed |
| `CorrectionClient.Apply` | crates/musicata-server/src/mpd_dsp.rs:187-211 | success means one patch, validated first and made from the first read, and a last read in which every band's filter has exactly that band's kind, frequency, gain and Q and the gain filter the profile's gain; a processor that merges always confirms; a refusal sends nothing |
| `LibraryAggregation.Builders.AggregateTrack` | crates/musicata-core/src/lib.rs:1540-1597 | the builder updates compute one step of the aggregation |
| `LibraryAggregation.AggregatesCounted` | crates/musicata-core/src/lib.rs:1540-1597 | after any tracks every builder counts exactly the tracks of its id and owns exactly its albums, once each |
| `LibraryAggregation.FinalizeConsistent` | crates/musicata-core/src/lib.rs:1232-1301 | finished rows: one for every album and artist of a track, none twice, every count true |
| `LibraryAggregation.AlbumTakesFirst` | crates/musicata-core/src/lib.rs:1549-1572 | an album has title, artist and year of its first track and the first cover any of its tracks supplies |
| `LibraryAggregation.AlbumColumns` | crates/musicata-core/src/lib.rs:1549-1572 | each column of an album is that of its first track |
| `LibraryAggregation.ArtistNames` | crates/musicata-core/src/lib.rs:1574-1597 | there is an artist for exactly the ids tracks and album artists carry, named as the first of them names it |
| `LibraryAggregation.FinalizeSorts` | crates/musicata-core/src/lib.rs:1250-1292 | finished rows are sorted by their columns and are exactly the rows given |
| `LibraryModel.TrackOrderMeaning` | crates/musicata-core/src/lib.rs:1283-1291 | tracks are ordered by artist, year, album, disc, number and title, a missing number before every other, the first column that differs deciding |
| `LibraryModel.AlbumOrderMeaning` | crates/musicata-core/src/lib.rs:1276-1281 | albums by artist, year and title |
| `LibraryModel.SameAlbumMeaning` | crates/musicata-core/src/lib.rs:2743-2755 | for artist keys without two colons in a row or one at the end, two albums have one id exactly when the key of the artist and the key of the title are both equal |
| `LibraryModel.TitlesTellApart` | crates/musicata-core/src/lib.rs:2743-2755 | with one album artist, titles with different keys give different ids |
| `LibraryModel.ColonsMixAlbums` | crates/musicata-core/src/lib.rs:2743-2755 | two albums with different artists and titles that share an id, since the colons of a name read like the separator |
| `Sorting.SortStable` | crates/musicata-core/src/lib.rs:1250-1291 | sorting leaves rows that tie in the order they came in |
| `LibraryAggregation.AlbumCountIsOwned` | crates/musicata-core/src/lib.rs:1241-1247 | an artist's album count is the number of different albums it owns as album artist |
| `LibraryAssembly.ChooseId` | crates/musicata-core/src/lib.rs:1190-1197 | the search ends, and yields the identity if free, else the first free numbered candidate after those already used |
| `FreshIds.AheadShrinks` | crates/musicata-core/src/lib.rs:2569-2578 | every retry leaves one reserved id behind for good, so the search is finite |
| `LibraryAssembly.AssembleLibrary` | crates/musicata-core/src/lib.rs:1134-1226 | the three loops compute the assembled library of the path-sorted tracks |
| `LibraryAssemblyLaws.OrderDoesNotMatter` | crates/musicata-core/src/lib.rs:1134-1226 | the same library for every permutation of tracks with distinct paths |
| `LibraryAssemblyLaws.IdsAreKeptAndDistinct` | crates/musicata-core/src/lib.rs:1180-1208 | reused tracks keep their ids and, reused ids being distinct, all ids are distinct; no track is lost |
| `LibraryAssemblyLaws.FreshIdIsIdentity` | crates/musicata-core/src/lib.rs:1188-1197 | a fresh track keeps its identity as id unless a reused or earlier track has it |
| `LibraryAssemblyLaws.CountsAreTrue` | crates/musicata-core/src/lib.rs:1198-1226 | every count in an assembled library is the number of tracks that carry the id |
| `LibraryAssemblyLaws.ChosenCoverStays` | crates/musicata-core/src/lib.rs:1145-1216 | an album keeps its preferred cover as long as any of its tracks still supplies it |
| `LibraryCovers.AlbumCover` | crates/musicata-core/src/lib.rs:1145-1216 | the cover of every assembled album: the one of its last earlier row that had any, taken from the first track in path order that still supplies it; otherwise the first cover any of its tracks supplies; none exactly when none does |
| `LibraryCovers.PreferredMeaning` | crates/musicata-core/src/lib.rs:1145-1153 | the preferred cover of an album is that of its last earlier row with a cover |
| `LibraryRegroup.RegroupLibrary` | crates/musicata-core/src/lib.rs:1337-1481 | the loop over the tracks computes the regrouped library |
| `LibraryRegroup.ShownFields` | crates/musicata-core/src/lib.rs:1337-1437 | title, album and artist shown are the override's, then the tag's, then the folder's, then the track's own; the artist is then renamed exactly when an alias has its key |
| `LibraryRegroup.ShownNumbers` | crates/musicata-core/src/lib.rs:1337-1437 | likewise year, track and disc, and what identifies the track stays |
| `LibraryRegroup.ShownAlbumArtist` | crates/musicata-core/src/lib.rs:1405-1436 | the album artist is the override's, then the observed one, then the track's artist if it was observed at all, and only otherwise that of its old album; aliases apply to it too |
| `LibraryRegroup.ShownIds` | crates/musicata-core/src/lib.rs:1438-1449 | the ids are those of the names shown and of the first identifiers observed |
| `LibraryRegroup.TrackRegroupsFromObservations` | crates/musicata-core/src/lib.rs:1487-1521 | whatever aliases an earlier regrouping applied to a scanned track, a later one gives names, numbers and ids as if it had not been |
| `LibraryRegroup.RegroupingForgets` | crates/musicata-core/src/lib.rs:1337-1481 | regrouping with one alias set and then another gives the tracks that the last set alone gives, the same album and artist ids, and for each the same counts of tracks and albums |
| `LibraryRegroup.RegroupingForgetsCounts` | crates/musicata-core/src/lib.rs:1337-1481 | so an album or artist id has one and the same count of tracks, and of albums, both ways |
| `LibraryRegroup.RegroupedCounts` | crates/musicata-core/src/lib.rs:1337-1481 | every count after regrouping is the number of tracks that carry the id |
| `LibraryRegroup.RegroupingIsScanning` | crates/musicata-core/src/lib.rs:2246-2295 | without curation regrouping gives a scanned track exactly what the scan gave it, also after earlier aliases |
| `LibraryRegroup.UnobservedAliasStays` | crates/musicata-core/src/lib.rs:1405-1436 | a track without observations keeps an alias for good, exactly when the alias renamed it |
| `LibraryMerge.Distinguish` | crates/musicata-core/src/lib.rs:1643-1655 | the suffix search ends with the first free suffix from two on |
| `LibraryMerge.MergeLibraries` | crates/musicata-core/src/lib.rs:1604-1697 | the nested loops compute the merged library |
| `LibraryMerge.SourceOrderDoesNotMatter` | crates/musicata-core/src/lib.rs:1605-1609 | the same merged library for every order of sources with different provider and root |
| `LibraryMerge.NoTrackIsLost` | crates/musicata-core/src/lib.rs:1643-1657 | every source track is there, unchanged but for its id, and all ids are distinct |
| `LibraryMerge.FreeIdIsKept` | crates/musicata-core/src/lib.rs:1643-1657 | a track keeps its id when no earlier one ended up with it |
| `LibraryMerge.MergedCountsAreTrue` | crates/musicata-core/src/lib.rs:1625-1657 | if every count in each source is true, every count in the merged library is |
| `LibraryMerge.AlbumsAreCountedOnce` | crates/musicata-core/src/lib.rs:1669-1680 | an artist's album count is the number of distinct merged albums it owns |
| `LibraryMerge.MergedAlbum` | crates/musicata-core/src/lib.rs:1635-1640 | an album of several sources has all columns but its count from the first source that has it |
| `LibraryMerge.MergedArtist` | crates/musicata-core/src/lib.rs:1625-1634 | so has an artist its name |
| `LibraryMerge.SourceOrder` | crates/musicata-core/src/lib.rs:1605-1609 | sources come in the order of their providers, and within one of their roots |
| `IdleGate.IdleGateObject.ObserveStates` | packaging/usb_autowake.py:136-149 | the two fields and the decision after an observation are those of the gate function |
| `IdleGate.Controller.Turn` | packaging/usb_autowake.py:26-38 | a turn of the main loop, failing anywhere, leaves the gate its history calls for and gives the command of that history |
| `IdleGate.SinceIsInRun` | packaging/usb_autowake.py:136-149 | a set start time is the time of a poll of the current unbroken idle run, and the least of them |
| `IdleGate.OffExactly` | packaging/usb_autowake.py:127-149 | the port is commanded off exactly at the end of an unbroken run of polls under one enabled delay, all idle on the same sources, none timed before the run's start, spanning the delay; for any clock |
| `IdleGate.OffExactlyWithSteadyClock` | packaging/usb_autowake.py:324-342 | with a clock that never goes back the run may be measured from any of its polls |
| `IdleGate.OnExactly` | packaging/usb_autowake.py:30-38 | commanded on exactly when a source plays under an enabled policy or the policy is disabled |
| `LineReader.StatusConnection.Begin` | packaging/usb_autowake.py:166-172 | a fresh budget never less than what the buffer already holds |
| `LineReader.StatusConnection.Line` | packaging/usb_autowake.py:184-198 | each line returned is the next of the stream; at most the limit is consumed per observation; the buffer never exceeds the remaining budget, so the negative-budget error cannot occur; too long means a full budget without a newline |
| `LineReader.LinesAreTheSplit` | packaging/usb_autowake.py:184-198 | the lines taken are the newline split of the bytes received |
| `LineReader.ChunksDoNotMatter` | packaging/usb_autowake.py:184-198 | two sessions whose peers send the same bytes agree on every line, however the bytes were chunked |
| `PacketDigest.Digest` | crates/musicata-server/src/audio_identity.rs:75-154 | the accept loop: Ok exactly for acceptable streams when not disturbed, with exactly the stream's transcript |
| `PacketDigest.AcceptPacket` | crates/musicata-server/src/audio_identity.rs:99-134 | one packet is accepted exactly when it is sound and follows the last |
| `PacketDigest.CheckPacket` | crates/musicata-server/src/audio_identity.rs:99-115 | the size and overflow checks refuse exactly the packets that are not sound |
| `PacketDigest.AcceptableMeaning` | crates/musicata-server/src/audio_identity.rs:68-151 | a stream is acceptable exactly when it declares frames, has packets, each within the size and time limits and for PCM of exactly its frames' bytes, that follow one another without gap and whose span covers the declared frames |
| `PacketDigest.TranscriptInjective` | crates/musicata-server/src/audio_identity.rs:201-204 | equal transcripts mean equal codec parameters and equal packet sequences |
| `PacketDigest.FramedMeaning` | crates/musicata-server/src/audio_identity.rs:201-204 | a framed piece is eight bytes that read, least significant first, as its length, and then the piece itself |
| `PacketDigest.PacketsTile` | crates/musicata-server/src/audio_identity.rs:116-151 | every declared frame is in exactly one packet and no packet holds another |
| `PacketDigest.PcmBytes` | crates/musicata-server/src/audio_identity.rs:102-115 | an accepted PCM stream has frames times channels times width bytes |
| `PacketDigest.CutShort` | crates/musicata-server/src/audio_identity.rs:142-151 | an accepted stream cut short is accepted exactly when nothing that lasts was cut |
| `RateLimiter.Limiter.ReserveSlot` | crates/musicata-server/src/musicbrainz.rs:52-67 | the granted start is the call's time or the claimed slot, and the sleep ends no earlier |
| `RateLimiter.Limiter.BackOff` | crates/musicata-server/src/musicbrainz.rs:71-78 | the slot moves to the resume time unless it is already later |
| `RateLimiter.GrantsRespect` | crates/musicata-server/src/musicbrainz.rs:52-78 | over any history and any clock: starts are an interval apart, never before their call, and never before the end of an earlier back-off |
| `RateLimiter.GrantsAreEarliest` | crates/musicata-server/src/musicbrainz.rs:52-78 | and no later than that: a start is the call's time or one of those bounds |
| `RateLimiter.SlotNeverEarlier` | crates/musicata-server/src/musicbrainz.rs:71-78 | the slot never moves earlier |
| `RateLimiter.AcoustIdBudget` | crates/musicata-server/src/fingerprint.rs:217-232 | any half-open second holds at most three AcoustID starts |

## Left out

- Pairing, enrolment, tokens and revocation: the revision protocol starts paired.
- Device data in a report (lengths, unique ids, staleness): only the revisions are modelled, since the other checks never depend on them.
- Widths of revisions, sequence numbers and packet counts: taken unbounded, or reduced where the code reduces them.
- File modes, ownership and symlink checks: a nondeterministic check that may fail.
- ManagedHost.Manager.Inventory: gives some list of devices; how ALSA cards and USB identities are read is not modelled.
- ArtworkPins.StepKeepsInv: does not model corrupt objects, legacy images or two passes at once, treats a pass as shorter than the grace period, and has a wall clock that never goes back, so that no pin lies ahead of it.
- ArtworkPinRuns.PinSurvives: so has every run.
- ArtworkPinRuns.SurvivalBound: likewise, and it is about pins that every pass can read.
- ArtworkMaintenance.ArtworkCache.Maintain: runs alone and reads each clock once, takes directory walks as complete, and states the budget for passes without faults, with every recent pin still aliased and no access time waiting to be written, whose writing may lengthen an alias after it was counted.
- ArtworkMaintenance.ArtworkCache.Count: the length of an alias that was read is readable too; the code counts it as zero otherwise.
- Decoding of bytes as UTF-8: aliases and lines are sequences of characters or bytes, and a line may fail to decode.
- Request and response framing of MPD: a command either answers, fails, is left unanswered or loses its connection, with or without effect; a reply that breaks off in bytes that are no text, whose rest the next command would read, is not modelled.
- ManagedHost.Manager.ApplySelection: takes the text of the configuration as its exact content, so it has no carriage returns, which reading the file as text would translate.
- PlayerFiles.Machine.ApplyFiles: what the caller does to the hardware before files are put back is a step that may fail.
- AudioTap.ReadIsLatest: assumes sequential consistency and a sequence number that does not wrap; `applied_revision` is not part of it.
- The loudness meter, playback levels and requantising.
- Cookbook.BandGain: takes sine, cosine, powers of ten and roots as functions with their laws, and says what a filter that has been playing a tone goes on doing, not how it settles from rest.
- Equaliser.CompositionCondition: takes any formulas whose first coefficients are not zero; `ComposedExactly` shows that those of the code are of that kind.
- CorrectionPatch.PatchIsConfirmed: compares numbers exactly, where the code compares them as 64-bit floats.
- LibraryAssembly.AssembleLibrary: leaves out `artwork_url`, which reads file times, and the remaining columns of a track, which pass through unchanged.
- LibraryRegroup.RegroupLibrary: does not carry artwork over from the albums of before, and display names of rows, which depend on the order of tracks, enter no statement.
- Normalising artist names and trimming tags: functions given from outside; nothing assumes the first to be idempotent.
- IdleGate.Controller.Turn: the port is a command that may raise; identity and topology checks of the USB device are not modelled.
- PacketDigest.Digest: the transcript stands for its SHA-256, the codec table for the sample width it gives, and demuxing for the packets it yields.
- RateLimiter.Limiter.ReserveSlot: the time a thread really wakes is only bounded from below.
- Installers, HTTP handlers, the database beyond the two statements cited, the web interface, schedules and filters.
