# Verification model

A Dafny 4.11 model of the stateful core of a remote monitoring and management server and
its agent, with proofs of what that core promises. `dafny verify dfyconfig.toml` checks all
of it.

## What is modelled

- **Credential filter** (`SecretLines`, `LineVerdicts`, `SecretFilter`, `FilterProperties`,
  `LeadLines`, `JobFilters`, `Json`, `Marker`, `MarkerLimits`, `JsonSpelling`). Job output arrives in arbitrary chunks;
  lines that start with `##RMM-CRED##` behind an invisible lead become credentials.
  `LineFilter` has the source's fields and branches; `SecretLines` defines the simple whole-text, line-by-line
  function it is proved equal to. Text is a sequence of code points, lone surrogates
  included, as a Python string is. `Json` prints and reads strings the way Python does.
- **Job rows and agent sockets** (`Jobs`, `JobRaces`, `JobsTable`, `AgentSocket`,
  `Isolation`, `GateCache`, `JobLog`, `MarkerJob`). The job life cycle with its output cap in
  UTF-8 bytes, also with the reads and writes of overlapping calls apart; the ownership gate
  of a socket; the server with all its sockets interleaved, a handler suspended where the code
  waits: for the lookup of a job it has not cached, and for what a report does to row and
  vault once its filter has had it; and the way of a whole job from the agent's messages to
  its row.
- **MDM enrollment** (`Mdm`, `MdmInvariant`, `MdmOutcomes`, `MdmRequests`, `MdmRuns`,
  `MdmSuperseded`, `MdmStore`). The two tables, each handler as a step; certificate requests
  also split into read and guarded update and interleaved. Random tokens are fresh numbers and a hash stands for what it was taken of.
- **Queued actions** (`Actions`, `ActionInvariant`, `ActionRuns`, `ActionOutcomes`,
  `ActionSelection`, `ActionDecisions`, `ActionStore`). Storage functions are atomic; the
  runner reads a due list and works off its items one step at a time, with anything in
  between. What the runner finds out about a device (agent, open scan, script, restart state, whether the send works) is a parameter.
- **Alerts** (`AlertRules`, `AlertOutcomes`, `Alerts`). The governing rule, the verdict of
  each rule type and the tick over the alert table. Device state and the clock are parameters.
- **Agent** (`AgentJob`, `Outbox`). What the goroutine of a job says on each of its branches;
  goroutines, reader and serve loop of one connection as interleaved steps over the bounded
  queue.
- **Smaller cores.** `WireSize`: the size of a patch selection's job message. `PatchAge`:
  patches across scans. `Dots`: the dots of the start screen. `Csv`: the CSV printer.
  `LogRing`: the agent's log ring.

Code that changes state in place is a class or a method with loops, proved against a
specification function; the lemmas over runs and histories are about those functions.

## Where the code does less than its documentation says

For each there is a lemma that says exactly when the property holds, and a run or an input
on which it does not.

- A marker field that holds the two halves of one character as two characters comes back as
  one character (`Marker.MarkerRoundTrip`, `Marker.SplitPairIsLost`).
- A line that is no marker line but begins with more than 65,536 characters nobody sees is
  replaced by the note about too long marker lines (`LeadLines.OrdinaryLineIff`,
  `LeadLines.LongBlanksAreReplaced`).
- A credential with a lone surrogate in a field is lost, and its note and the socket with it.
  The job's result goes nowhere, and its row stays running until a sweep times it out
  (`MarkerJob.PrintedCredentialIff`, both cases; `MarkerJob.LostCredentialTimesOut`).
- The truncation note is missing when a chunk ends exactly on the output cap
  (`Jobs.MarkedIff`, `Jobs.NoNoteBehindTheCap`).
- Two overlapping calls of the storage function that appends to a job lose a chunk. One
  socket never makes them, and the agent sends all of a job over one; two sockets of a device
  reporting on the same job can (`JobRaces.NoChunkIsLostIff`, `JobRaces.OverlapLosesAChunk`).
- A job that ends between the sweep's read and its write ends as timed out
  (`JobRaces.FinalMovesIff`, `JobRaces.DoneBecomesTimeout`).
- Closing a device's socket before deleting its jobs does not stop a report on a job the
  socket has not cached whose lookup has read the row: it still gets past the gate, and can
  leave a filter behind (`GateCache.DeletedJobPassesIff`, `GateCache.ReportOutlivesItsJob`).
- A certificate request with a wrong name that overlaps the enrollment of the phone revokes
  an enrollment a binding rests on (`MdmRuns.BindingsHoldThroughoutIff`,
  `MdmRuns.RaceRevokesABoundEnrollment`).
- A new download does not stop a certificate request that has read the row before: it is
  accepted on the superseded challenge (`MdmSuperseded.SupersededIsAcceptedIff`,
  `MdmSuperseded.OldChallengeIsAccepted`).
- A request for all updates that is merged into a row already on a due list is reported as
  merged, but the job that goes out is picked for security only
  (`ActionSelection.MergeIsCarriedIff`, `ActionSelection.AllUpdatesAreNotSent`).
- A cancel or expiry between reading the due list and acting on it is overwritten
  (`ActionOutcomes.ClosedMovesIff`, `ActionOutcomes.CancelIsOverwritten`).
- An install with `reboot` that is closed as done because nothing is pending queues no
  reboot (`ActionOutcomes.DoneHasItsRebootIff`,
  `ActionOutcomes.NothingToInstallLeavesNoReboot`).
- Two install requests can both pass the check (`ActionOutcomes.CreateInstallKeepsIff`,
  `ActionOutcomes.TwoRequestsOverlap`).
- An action takes the reported word although its job row had ended otherwise
  (`ActionOutcomes.ActionAndRowAgreeIff`, `ActionOutcomes.DoneAfterTheSweep`).
- With a disk clearing level set above the alert level, a disk between them flips its alert
  with every tick (`AlertRules.TickSettlesIff`, `AlertRules.DiskFlipsWithEachTick`).
- With fewer dots than occurring states one loses its dot (`Dots.AssignDotStates`,
  `Dots.OneDotForTwoStates`).
- A CSV row without cells reads back as one empty cell (`Csv.CellsComeBackIff`,
  `Csv.EmptyRowGainsACell`).

## Model

| member | source | states |
|---|---|---|
| SecretFilter.FilterJob | backend/app/job_secrets.py:246-276 | Chunk invariance: for every text and every way to cut it, the outputs of all `extract` calls and the `flush` joined, and the credentials in order, are those of the whole text read line by line; and what is out after each chunk depends only on the text up to there. |
| SecretFilter.LineFilter.Extract | backend/app/job_secrets.py:246-261 | The state between chunks is a function of the text so far (settled lines and one open line), at most one of holding, passing through, dropping and swallowing an LF is active, and the chunk's output is exactly what the account of emitted text grows by. |
| SecretFilter.LineFilter.Flush | backend/app/job_secrets.py:264-276 | What is still held comes out as the last, unterminated line: settled lines plus output equal the whole text processed. |
| SecretFilter.LineFilter.Take | backend/app/job_secrets.py:170-208 | One line or fragment leaves the filter in the mode, and emits the piece, that the closed form for an open or finished line prescribes, also for a CR that may be half of a CRLF. |
| SecretFilter.LineFilter.SkipDropped | backend/app/job_secrets.py:211-225 | Skipping emits nothing and loses nothing: what remains comes to the same as open line plus chunk did. |
| SecretFilter.LineFilter.ContinueHeld | backend/app/job_secrets.py:228-243 | Continuing a held line over a chunk, CRLF cut in half included, comes to the same as reading it in one piece. |
| FilterProperties.HeldFragmentIsBounded | backend/app/job_secrets.py:77-95 | In every reachable state a held fragment has at most 65,537 characters, is lead plus the marker or a beginning of it, and is a finished line only as a marker line whose CR may be half of a CRLF. |
| FilterProperties.OrdinaryOutputPasses | backend/app/job_secrets.py:198-208 | Output without marker lines goes out unchanged and at once, its unfinished last line included. |
| LeadLines.MarkerLineIff | backend/app/job_secrets.py:61-75 | A line is a marker line exactly if the twelve characters of the marker stand in it with nothing but unseen characters in front: controls, blanks, soft hyphen, joiners, direction marks and embeddings, word joiners, byte order mark, each by its code point. |
| LeadLines.MightBeMarkerIff | backend/app/job_secrets.py:128-131 | A fragment is waited for exactly if some continuation makes it a marker line. |
| LeadLines.HeldCouldBecomeOne | backend/app/job_secrets.py:77-95 | Whatever state the filter comes to: what it holds is at most 65,537 characters, and something that follows could make it a marker line. |
| LeadLines.OrdinaryLineIff | backend/app/job_secrets.py:142-167 | A line goes out as it is exactly if it is no marker line and, where it is longer than 65,536 characters, nothing that follows its first 65,537 would make it one. |
| LeadLines.LongBlanksAreReplaced | backend/app/job_secrets.py:142-153 | A line that is no marker line and is replaced all the same: 65,537 blanks and a letter. |
| LeadLines.FirstCharacterDecides | backend/app/job_secrets.py:128-131 | A line whose first character can be seen and is not `#` goes out as it is and as it comes in, at any length. |
| LeadLines.FilterOrdinary | backend/app/job_secrets.py:246-276 | Output in which no line is a marker line, and no continuation of the open one is, goes out chunk by chunk as it comes in, under every chunking, and leaves no credential. |
| LeadLines.AnyLeadedLine | backend/app/job_secrets.py:65-75 | A printed marker line behind any unseen characters, byte order marks and zero-width ones included, comes to just its note and its credential, or to the note about its length or format. |
| LeadLines.FilterAround | backend/app/job_secrets.py:246-276 | The same in the middle of any output and under every chunking: around the note stands what the rest comes to, and the credential is found in its place. |
| LeadLines.NotesTellApart | backend/app/job_secrets.py:56-57 | The notes differ from each other, and the one for a stored credential tells its label. |
| LeadLines.BlankIs | backend/app/job_secrets.py:101-118 | What is trimmed off label, user name and note, code point by code point. |
| LeadLines.StripIs | backend/app/job_secrets.py:101-118 | Trimming takes blanks off both ends, and all of them. |
| JsonSpelling.SpelledTextReads | backend/app/job_secrets.py:101-110 | A string of Unicode characters is read as it is however each of them is written: as itself, by letter, or in hexadecimal digits of either case (section 7 of RFC 8259). |
| JsonSpelling.BadCharacters | backend/app/job_secrets.py:101-110 | A bare control character, or a backslash before any other letter, makes the payload invalid. |
| JsonSpelling.AnySpellingReads | backend/app/job_secrets.py:101-110 | An object written with any strings so spelled and any blanks between its parts reads as its members; with anything but blanks behind it, it is invalid. |
| JsonSpelling.LastValueCounts | backend/app/job_secrets.py:101-118 | Of a key given twice the last value counts. |
| JsonSpelling.CredentialIs | backend/app/job_secrets.py:101-118 | A credential needs a label with something to be seen in it and a secret; the secret keeps its blanks, the other fields are trimmed, and they are cut to 120, 4,096, 120 and 500 characters. |
| JsonSpelling.PrinterSpells | backend/app/job_secrets.py:325-326 | The printer of marker lines writes one of these spellings: printable ASCII as it is, and all else escaped. |
| FilterProperties.FilterWithoutLeak | backend/app/job_secrets.py:246-276 | Under every chunking: at each moment in which a line that begins like a marker line is coming in, all outputs so far joined are what the lines before it came to, and at most the note that it is too long. |
| FilterProperties.NothingIsTakenBack | backend/app/job_secrets.py:246-276 | Text passed on and credentials found only ever grow: with more input, and with the end of the job. |
| FilterProperties.LogIndependentOfSecrets | backend/app/job_secrets.py:156-167 | Two texts whose marker lines differ only in what they carry besides the label leave the same log. |
| FilterProperties.FilterLookalikes | backend/app/job_secrets.py:246-276 | The same of streams: two such jobs, each cut into chunks in its own way, leave the same log. |
| LineVerdicts.TooLongByHead | backend/app/job_secrets.py:142-153 | The verdict on an over-long line depends on its first 65,537 characters alone. |
| LineVerdicts.TooLongStays | backend/app/job_secrets.py:142-153 | A line found too long stays so however it goes on, so a held fragment and the finished line agree. |
| LineVerdicts.PlainFragmentStays | backend/app/job_secrets.py:128-131 | A fragment that cannot become a marker line never does, however it goes on. |
| Json.StringRoundTrip | backend/app/job_secrets.py:325-326 | A string written with ASCII escapes reads back as itself, with each split surrogate pair merged, whatever follows its closing quote (section 7 of RFC 8259). |
| Json.MergeIsIdentityIff | backend/app/job_secrets.py:101-118 | The merging loses nothing exactly if the text holds no high surrogate right before a low one. |
| Marker.ObjectRoundTrip | backend/app/job_secrets.py:101-118 | The printed payload parses to its members, in any order, split pairs merged. |
| Marker.PrintedWithinBudget | backend/app/job_secrets.py:44-54 | Payloads within the field limits print in few enough characters to stay under the line limit: at most twelve per character, and the keys and quotes. |
| Marker.MarkerLineIsALine | backend/app/job_secrets.py:325-326 | A printed marker line is exactly one line, starts with the marker and is never too long. |
| Marker.MarkerRoundTrip | backend/app/job_secrets.py:101-118 | Processing the printed line gives one note and one credential; its fields are exactly the printed ones if and only if no field holds a split surrogate pair. |
| Marker.SplitPairIsLost | backend/app/job_secrets.py:325-326 | Such a payload, printed as a marker line and processed: the two halves of one emoji are stored as one character. |
| MarkerLimits.AnyMarkerLine | backend/app/job_secrets.py:101-167 | Any members with any keys, of any length: an over-long line leaves the note about that, one without visible label or secret the note about its format, every other line its credential with each field cut to its limit. |
| MarkerLimits.FieldsSurviveIff | backend/app/job_secrets.py:101-118 | The stored fields are the printed ones exactly if none holds a split surrogate pair or exceeds its limit. |
| FilterProperties.StreamMarkerLine | backend/app/job_secrets.py:246-276 | The same round trip through the streaming filter under every chunking. |
| JobFilters.Filters.Extract | backend/app/job_secrets.py:246-261 | The output for a job is the increment of that job's text alone, whatever the other jobs' filters hold; only its own account changes. |
| JobFilters.Filters.Flush | backend/app/job_secrets.py:264-276 | What is left to say of that job, and its filter is gone. |
| JobFilters.Filters.Discard | backend/app/job_secrets.py:279-289 | The job's filter is gone and nothing it held is emitted. |
| Jobs.TerminalIsFrozen | backend/app/jobs.py:193-278 | Each storage function in one piece: done, failed and timed-out rows never change again, over any run of events. |
| Jobs.OutputOfRun | backend/app/jobs.py:204-248 | Over any run: unless the row fails undispatched, its output is, in closed form, the whole characters of all accepted chunks that fit under the cap, and the note if the cap was crossed inside a chunk; if it does, the row is failed from then on with the reason as its output. |
| Jobs.AppendStep | backend/app/jobs.py:204-222 | One more chunk on a row in that closed form leads to the closed form of one more chunk, also at and past the cap. |
| Jobs.FillFacts | backend/app/jobs.py:213-220 | Once the cap is reached or cut, the row refuses every further chunk: at most three bytes are lost to a cut character and the note outweighs them. |
| Jobs.MarkedIff | backend/app/jobs.py:213-220 | The truncation note is there exactly if more came than fits and no chunk ended on the cap; after one that did, the rest is dropped unmarked. |
| Jobs.NoNoteBehindTheCap | backend/app/jobs.py:213-220 | Such a run: a chunk of exactly 1,000,000 bytes and one more character. |
| Jobs.OutputIsBounded | backend/app/jobs.py:204-248 | Over any run a row's output stays within the cap and the 14 bytes of the note, unless it is the reason of an undispatched job; the reason the server gives stays within it too. |
| Jobs.CutIsLongest | backend/app/jobs.py:217-219 | Cutting at a byte count and decoding with errors ignored keeps a text that fits, and otherwise stops less than one character short of the cap. |
| JobRaces.NoChunkIsLostIff | backend/app/jobs.py:204-222 | With the read and the write of `append_output` interleaved in any way: the log has every written chunk, in the order of the writes, exactly if no other write came between the read of an append and its own. |
| JobRaces.OverlapLosesAChunk | backend/app/jobs.py:204-222 | Such a run of the storage function: two overlapping calls for one job, of which the second undoes the first. |
| JobRaces.RunKeepsInv | backend/app/jobs.py:204-248 | Over any such run the output is still the closed form of some chunks, or the reason of a job that failed undispatched. |
| JobRaces.FinalMovesIff | backend/app/jobs.py:251-273 | With reads and writes interleaved a final row changes exactly by a late write: a sweep that selected it before it ended otherwise, or an append that read it before and comes to another text; it stays final. |
| JobRaces.FinalForGood | backend/app/jobs.py:193-273 | A final row with nothing on its way never changes again, over any interleaved run. |
| JobRaces.DoneBecomesTimeout | backend/app/jobs.py:259-273 | A run of the first kind: selected, done, and timed out all the same. |
| JobRaces.OneAfterTheOther | backend/app/jobs.py:193-273 | Functions that do not overlap come to the row events of `Jobs`, one each. |
| JobsTable.JobStore.CreateJob | backend/app/jobs.py:142-161 | A fresh id with a queued row; no other row changes. |
| JobsTable.JobStore.MarkRunning | backend/app/jobs.py:193-201 | Only a queued row starts running. |
| JobsTable.JobStore.AppendOutput | backend/app/jobs.py:204-222 | The row takes the chunk as the row event says, refused for unknown, finished or full rows; and it raises exactly for a chunk with a lone surrogate that would have been taken. |
| JobsTable.JobStore.FinishJob | backend/app/jobs.py:225-235 | An unfinished row, and no other, takes the result: done for `done`, timed out for `timeout`, failed for `failed` and any other word; nothing else about it or any other row changes. |
| JobsTable.JobStore.FailUndispatched | backend/app/jobs.py:238-248 | Only a queued row fails undispatched, with the reason as its output. |
| JobsTable.JobStore.SweepStale | backend/app/jobs.py:257-273 | Exactly the queued and running rows of an install older than the install limit, and of any other kind older than the common one, time out; their ids come back; nothing else changes. |
| JobsTable.SweepTakesWhatRanOut | backend/app/jobs.py:257-269 | The same of the table function the interleaved systems sweep with. |
| JobsTable.StockLimits | backend/app/main.py:93-96 | With the stock limits, 2,100 and 4,500 seconds, a shell job of 3,000 seconds times out and an install of the same age does not. |
| JobsTable.JobStore.ActiveJobOfKind | backend/app/jobs.py:322-333 | The newest queued or running job of the kind on the device, and none exactly if there is none. |
| JobsTable.JobStore.DeleteForDevice | backend/app/jobs.py:336-342 | Exactly the device's rows go, and exactly their ids come back. |
| AgentSocket.JobGate.Allows | backend/app/routers/agent.py:341-365 | A report passes exactly if the job is cached or the table gives it to this device; the cache grows by just that id, and a refusal is audited once per id, at most twenty in all. |
| AgentSocket.JobGate.Finished | backend/app/routers/agent.py:367-370 | The id leaves the cache and nothing else does. |
| AgentSocket.Backend.OnStarted | backend/app/routers/agent.py:510-513 | A start report the gate refuses changes nothing; one it lets through starts its own row only. |
| AgentSocket.Backend.OnOutput | backend/app/routers/agent.py:514-530 | Row, filter and vault change as that job's report says and no other job's do; a refused report changes nothing; and it raises exactly if a credential cannot be stored or the text not appended, with everything before that done and nothing after. |
| AgentSocket.Backend.OnResult | backend/app/routers/agent.py:531-552 | The filter is flushed before the row is finished and the id leaves the cache; a refused report changes nothing; after an exception the row is not finished; and the job's action is to be closed with the reported word exactly if the report was let through without one. |
| AgentSocket.Backend.Store | backend/app/job_secrets.py:292-303 | The credentials ahead of the first one with half of a surrogate pair in its label, secret, user name or note are stored, and it raises exactly if there is one. |
| AgentSocket.Backend.Sweep | backend/app/jobs.py:251-278 | The stale rows time out and exactly their filters go. |
| AgentSocket.Backend.DeleteForDevice | backend/app/jobs.py:336-345 | The device's rows and exactly their filters go. |
| Isolation.NonInterference | backend/app/routers/agent.py:320-370 | Over any interleaving of sockets that connect, report, close and are cut off, of lookups and handlers still under way, of sweeps and deletions: the row, filter and credentials of job j of device d come out as in the run in which some other message stands in place of every report that is not d's on j. |
| Isolation.NonInterferenceFromStart | backend/app/routers/agent.py:320-370 | The same of every run of the server from its start. |
| Isolation.RunKeepsInv | backend/app/routers/agent.py:341-365 | Over any run, rows, cached ids and what a lookup has answered belong to the device the job was created for, a closed socket has a handler still busy, and the registered socket of a device is one of its own. |
| GateCache.OnlyOwnJobsPass | backend/app/routers/agent.py:341-349 | No device ever gets past the gate to a job it did not own, by its cache or by a lookup. |
| GateCache.AgreesThroughoutIff | backend/app/routers/agent.py:341-370 | Over any run, what a device's handlers take for their own and the table agree at every moment exactly if no deletion of its jobs meets one that is cached, or whose lookup has already read the row. |
| GateCache.NoneGonePasses | backend/app/routers/agent.py:341-349 | Over a run in which they agree no report on a job the table does not give to the device gets past the gate. |
| GateCache.WhoIsLeft | backend/app/agents_ws.py:75-119 | After a device's socket was told to close, whoever is still there was busy then, or is a socket the close did not reach, or came since. |
| GateCache.DeletedJobPassesIff | backend/app/routers/devices.py:478-490 | A device deleted in good order, its one open socket closed first and none connecting until its jobs are gone: from then on a report on one of these jobs gets past the gate exactly if a lookup had read its row by the time they went and resumes. |
| GateCache.ReportOutlivesItsJob | backend/app/routers/agent.py:344-349 | Such a run: a chunk comes in, the lookup reads the row, the device is deleted, the lookup resumes. The chunk passes, and a filter stays behind for a job that is gone. |
| JobLog.OneExchange | backend/app/routers/agent.py:341-370 | A report whose handler is not interleaved with anything comes to what the gate and its branch say in one piece, and takes the socket along if it raises. |
| JobLog.LogOfAJob | backend/app/routers/agent.py:510-552 | From the agent to the row, over the one socket a job has, for every output without lone surrogates in any chunks: if each credential in it can be stored, the row has the status, the exit code and, up to the cap, the output read line by line, the vault has gained the credentials, no filter is left, and no other job has changed. If one cannot, those before it are stored, the socket is gone, and the row is left running with what was passed on before. |
| JobLog.ShortLogIsWhole | backend/app/jobs.py:204-222 | A log that fits under the cap is stored whole. |
| MarkerJob.PrintedCredentialIff | backend/app/job_secrets.py:292-303 | A printed marker line, in any chunks, all the way: its credential is in the vault, its note in the log and the job ended as reported exactly if every field, as cut to its limit, is free of lone surrogates; otherwise vault and log have nothing, the socket is gone and the row is left running. |
| JobLog.OnlyTheSweepEnds | backend/app/jobs.py:251-278 | Over any later run in which nothing is reported of it, a running row stays as it is until a sweep that finds it stale times it out, or its device's jobs are deleted; each exactly then. |
| MarkerJob.LostCredentialTimesOut | backend/app/routers/agent.py:576-579 | So the job of such a credential ends as timed out or with its device, and in no other way. |
| MdmRuns.InvariantOverRuns | backend/app/mdm.py:239-406 | Over any run of whole handlers: UDID and device are a partial bijection, every binding rests on an enrollment of the same device and UDID with certificate, enrolled and never revoked, and a device has at most one open link. |
| MdmInvariant.CreateKeeps | backend/app/mdm.py:239-267 | A new link keeps all of it: the device's other open link is revoked first. |
| MdmInvariant.DownloadKeeps | backend/app/mdm.py:305-329 | A download keeps it, and never goes past five. |
| MdmInvariant.VerifyScepKeeps | backend/app/mdm.py:332-406 | A certificate request in one piece keeps it, whatever name the CSR carries. |
| MdmInvariant.TokenUpdateKeeps | backend/app/mdm.py:811-852 | Binding keeps it, also when the phone moves over from another device. |
| MdmInvariant.AuthenticateKeeps | backend/app/mdm.py:777-793 | The first check-in keeps it: an enrollment carrying another UDID stays as it is. |
| MdmInvariant.CheckOutKeeps | backend/app/mdm.py:861-889 | A check-out keeps it. |
| MdmInvariant.DeleteDeviceKeeps | backend/app/mdm.py:49-68 | Deleting a device, with its rows in both tables, keeps it. |
| MdmRuns.CertificatesAtMostOnce | backend/app/mdm.py:332-406 | However reads and guarded updates of concurrent requests interleave, each enrollment gets at most one accepted challenge, each started renewal at most one, and no link more than five downloads. |
| MdmRequests.AcceptedWasReadInTime | backend/app/mdm.py:332-366 | However requests interleave, a challenge is only accepted at the end of a request that read the row by it, and named it, while the enrollment was open, uncertified and not expired. |
| MdmRequests.VerifyScepIs | backend/app/mdm.py:332-406 | Accepted exactly if an open, uncertified, unexpired enrollment has the challenge and the name, or none has the challenge and a renewal started less than seven days ago and not used has it and the name; revoked, or without its challenge, exactly if only the name is wrong; every other row as it was. |
| MdmRequests.ExpiredIsRefused | backend/app/mdm.py:343-346 | A request on an expired link is unknown and changes nothing, whatever name it carries. |
| MdmOutcomes.CreateIs | backend/app/mdm.py:239-267 | The device's open link is revoked, a new one of its own, with fresh tokens, is open for the given hours, and no other row changes. |
| MdmOutcomes.DownloadIs | backend/app/mdm.py:305-329 | A link can be downloaded exactly while it is open, uncertified, unexpired and has been at most four times; each download puts a challenge no row has had in place of the last. |
| MdmOutcomes.StartRenewalIs | backend/app/mdm.py:631-655 | A device whose enrollment exists and that has not checked out gets a challenge no row has had, and the marks of the last renewal are cleared. |
| MdmOutcomes.FinishRenewalIs | backend/app/mdm.py:667-684 | The answer to the newest command takes the challenge away, and a good one dates the certificate by its request. |
| MdmOutcomes.AuthenticateIs | backend/app/mdm.py:777-793 | Exactly a certified enrollment that is not revoked and not another phone's notes the UDID. |
| MdmOutcomes.TokenUpdateIs | backend/app/mdm.py:811-852 | Such a phone is bound to the enrollment's device and to no other, column by column; without a certified enrollment its binding has been seen; with one of another phone nothing changes. |
| MdmOutcomes.CheckOutIs | backend/app/mdm.py:861-873 | Exactly the phone's binding is marked. |
| MdmOutcomes.StateIs | backend/app/mdm.py:203-217 | Which word the dashboard shows: each exactly for its columns. |
| MdmRuns.OnlyTheNewestRenewal | backend/app/mdm.py:631-655 | A renewal challenge is accepted only while it is the newest of its device. |
| MdmSuperseded.SupersededIsAcceptedIff | backend/app/mdm.py:343-366 | A request that read an open enrollment is accepted later exactly if it names it and it is still open and uncertified, over whatever happens in between; and its challenge is then still the newest exactly if nothing was downloaded in between. |
| MdmSuperseded.OldChallengeIsAccepted | backend/app/mdm.py:305-361 | Such a run: read, downloaded once more, accepted on the first challenge. |
| MdmRuns.StateOnlyMovesUp | backend/app/mdm.py:203-217 | Over any interleaved run and a clock that does not run back, an enrollment only moves up waiting, downloaded, expired, certificate, enrolled, revoked. |
| MdmRuns.LateRevocationKeepsIff | backend/app/mdm.py:347-354 | A request with a wrong name that read the enrollment early and revokes it late keeps the tables in order exactly if nothing is bound to it by then. |
| MdmRuns.BindingsHoldThroughoutIff | backend/app/mdm.py:332-406 | However requests interleave, the binding invariant holds at every moment of a run exactly if no request with another name comes to write to an enrollment a phone is bound to. |
| MdmRuns.RaceRevokesABoundEnrollment | backend/app/mdm.py:332-366 | Such a run, step by step: the binding is left resting on a revoked enrollment. |
| MdmStore.Store.CreateEnrollment | backend/app/mdm.py:239-267 | Both tables afterwards are exactly those of the handler's description, the new link open and the only open one; the invariant is kept. |
| MdmStore.Store.IssueProfileChallenge | backend/app/mdm.py:305-329 | A challenge is issued exactly if the link belongs to an open, uncertified, unexpired enrollment with downloads left. |
| MdmStore.Store.VerifyScepRequest | backend/app/mdm.py:332-366 | Outcome and tables are those of the read followed by its guarded update with nothing in between, and `Ok` and a wrong name are told apart by the columns of the two tables; without a challenge it is unknown and nothing changes. |
| MdmStore.Store.VerifyRenewal | backend/app/mdm.py:369-406 | The same for a renewal challenge, which ends when the CSR names another enrollment. |
| MdmStore.Store.BeginRenewal | backend/app/mdm.py:631-655 | A bound, not checked-out device gets a fresh challenge in place of any earlier one. |
| MdmStore.Store.FinishRenewalOf | backend/app/mdm.py:667-684 | Only the answer to the newest renewal command ends the renewal. |
| MdmStore.Store.BindableFor | backend/app/mdm.py:751-760 | An enrollment can be bound exactly if it is not revoked and has its certificate. |
| MdmStore.Store.OnAuthenticate | backend/app/mdm.py:777-793 | The UDID is noted on a bindable enrollment that carries none or the same. |
| MdmStore.Store.OnTokenUpdate | backend/app/mdm.py:811-852 | The device the enrollment was made for is bound to the UDID, every other binding of the UDID goes, and the binding rests on an enrolled row. |
| MdmStore.Store.OnCheckOut | backend/app/mdm.py:861-889 | The binding of that UDID is marked checked out and nothing else changes. |
| ActionRuns.MergedIsTheJoin | backend/app/pending_actions.py:153-169 | Merged requests are security-only exactly if all are, ask for a reboot exactly if one does, and expire with the latest, never if one never does. |
| ActionRuns.MergeIgnoresOrder | backend/app/pending_actions.py:153-169 | Neither order nor repetition of the merged requests matters. |
| ActionRuns.EveryRunIsSafe | backend/app/pending_actions.py:126-305 | Over any interleaving of requests, runner items, job reports, sweeps, cleanup and deletion of devices: no two actions share a job, a dispatched one has a job of its own kind on its own device, at most one install is queued or running per device, at most one action is pending per device, kind and script, each row asks for the merge of exactly the requests it got, and a deleted device has no action. |
| ActionRuns.EnteredAtMostOnce | backend/app/pending_actions.py:276-294 | Over any run an action is dispatched at most once and finished at most once, exactly once if that is where it ends, whatever results come twice or late and whatever is deleted. |
| ActionRuns.StepMovesUp | backend/app/pending_actions.py:222-294 | States only move up pending, cancelled or expired, dispatched, done or failed; device, kind and script never change; rows go only with their device. |
| ActionSelection.MergeIsCarriedIff | backend/app/action_runner.py:63-98 | An install is sent for the row as it was when the due list was read. Its updates are picked by what all merged requests come to, as the row says, exactly if the row did not ask for security updates only when it was read, or no request for all updates was merged into it between the reading and its turn. |
| ActionSelection.AllUpdatesAreNotSent | backend/app/action_runner.py:63-98 | Such a run: security updates asked for, the list read, all updates asked for, and the job that goes out picked for security only. |
| ActionOutcomes.ClosedMovesIff | backend/app/pending_actions.py:222-236 | While its device exists, a closed action changes its state exactly if the runner still has it on a list read before and acts on it. |
| ActionOutcomes.CancelIsOverwritten | backend/app/action_runner.py:117-137 | Such a run: a cancel between reading the due list and `mark_dispatched` is overwritten. |
| ActionOutcomes.ResultsRepeat | backend/app/action_runner.py:207-214 | A second result for a job leaves both tables as they are, whatever it says. |
| ActionOutcomes.InstallLeavesItsReboot | backend/app/action_runner.py:215-222 | An install with `reboot` whose job ends as done leaves a reboot pending for its device for at least another 24 hours. |
| ActionOutcomes.DoneHasItsRebootIff | backend/app/action_runner.py:93-96 | An install with `reboot` that a step moves to done has a reboot pending afterwards exactly if the step is the end of its job, or one was pending before; otherwise the runner closed it because it found nothing to install. |
| ActionOutcomes.NothingToInstallLeavesNoReboot | backend/app/action_runner.py:93-96 | Such a run: asked for with `reboot`, closed as done for lack of updates, no reboot in the table. |
| ActionOutcomes.OnlyThenAReboot | backend/app/action_runner.py:207-222 | No other result adds an action or touches one besides the one it closes. |
| ActionOutcomes.CloseOverLeavesNone | backend/app/action_runner.py:245-246 | After closing for every finished job found, in whatever order, no dispatched action is left whose job is over. |
| ActionOutcomes.CreateInstallKeepsIff | backend/app/routers/patches.py:136-153 | The install endpoint's second half keeps one install per device exactly if the send fails or none runs by then. |
| ActionOutcomes.TwoRequestsOverlap | backend/app/routers/patches.py:117-153 | Such a run: two requests that both checked before either created. |
| ActionOutcomes.ActionAndRowAgreeIff | backend/app/action_runner.py:207-214 | Action and job row end alike exactly if the row was still open or had already ended the reported way. |
| ActionOutcomes.DoneAfterTheSweep | backend/app/action_runner.py:207-214 | Such a run: the sweep times the job out, the agent reports done, and the action ends as done. |
| ActionInvariant.RunItemKeeps | backend/app/action_runner.py:63-75 | One item of a due list, even a stale one, keeps the invariant. |
| ActionInvariant.RequestInstallKeeps | backend/app/routers/patches.py:117-153 | The install endpoint in one piece keeps it. |
| ActionStore.Store.Create | backend/app/pending_actions.py:126-194 | The pending row for the same device, kind and script is widened, or a new one made if there is none, and `created` tells which; the invariant is kept. |
| ActionStore.Store.Cancel | backend/app/pending_actions.py:239-249 | Only a pending action of that device is withdrawn, and the result says whether. |
| ActionStore.Store.DueForDevice | backend/app/pending_actions.py:252-261 | Exactly the device's pending actions that have not run out to the second, by id. |
| ActionStore.Store.Expire | backend/app/pending_actions.py:308-327 | Exactly the pending actions whose time ran out expire, and exactly their ids come back. |
| ActionStore.Store.FindActionForJob | backend/app/pending_actions.py:286-294 | The dispatched action of a job, unique where the invariant holds. |
| ActionStore.Store.Work | backend/app/action_runner.py:64-74 | One due action is closed, sent with a job of its kind or left, as the kinds' conditions below say of what the runner found; a job that could not be sent has failed; the job id comes back exactly if it went out. |
| ActionDecisions.RebootIff | backend/app/action_runner.py:153-178 | Whatever happened since the list was read: a restart goes out exactly if there is an agent, its heartbeat says one is required, no install is queued or running, the command is known and the send works; the action is done without one exactly if a heartbeat is there that does not say so, no install is in the way and it is 900 seconds old; failed exactly if the device cannot be restarted. |
| ActionDecisions.InstallIff | backend/app/action_runner.py:87-103 | The same of an install: sent exactly if there is an agent, none is queued or running, no report is awaited, there are updates and the send works; done exactly if there are none. |
| ActionDecisions.ScriptIff | backend/app/action_runner.py:117-140 | The same of a script: sent exactly if it is still there, meant for this system, and the send works; failed exactly if not there or not meant for it. |
| ActionDecisions.JobStepsAre | backend/app/routers/patches.py:117-153 | A job asked for beside the runner gets a fresh row, queued or failed with the reason; an install only while none is queued or running on the device. |
| ActionDecisions.StepComesTo | backend/app/action_runner.py:63-75 | Both tables after an item's turn, row by row, with the job that was made. |
| ActionStore.Store.RunDue | backend/app/action_runner.py:50-75 | Nothing happens for a device that is not connected or gone. Otherwise working off the list in place is the fold of its items over both tables, and the returned ids are exactly the jobs that went out. |
| ActionStore.SentOutIsDispatched | backend/app/action_runner.py:62-75 | Each returned job belongs to an action marked dispatched with it. |
| ActionStore.PassIsARun | backend/app/action_runner.py:50-75 | Such a pass is a run of the interleaved system, so everything proved over runs holds of it. |
| ActionStore.Store.OnFinished | backend/app/action_runner.py:207-222 | The job's dispatched action is closed and its follow-up queued. |
| ActionDecisions.ResultEndsAs | backend/app/action_runner.py:207-214 | The action of a reported job is done exactly if the word is `done`, and failed otherwise. |
| ActionDecisions.HousekeepEndsAs | backend/app/pending_actions.py:297-305 | The cleanup ends an action whose job is over as done exactly if the job's row is, and as failed otherwise. |
| ActionStore.Store.Housekeeping | backend/app/action_runner.py:234-246 | Afterwards no dispatched action has a finished job: each that had is done exactly if its job's row is and failed otherwise, and each whose job is not over is as it was. |
| AlertRules.EffectiveRuleGoverns | backend/app/automation.py:309-323 | The rule found applies and comes before every other that does, most specific scope first, then oldest; none is found exactly if none applies. |
| AlertRules.AnyOrder | backend/app/automation.py:309-323 | The order of the rule list does not matter. |
| AlertOutcomes.RulingRule | backend/app/automation.py:309-323 | The rule found is for the device: for all, for a tag it has, or for its person; a person's rule beats a tag's, that one for all, and the older of two alike wins. |
| AlertOutcomes.TickComes | backend/app/alerts.py:187-345 | What a tick makes of each alert, by type and from the device's fields alone: when a closed one opens and when an open one closes, what is left alone in maintenance or for its class, and what no enabled rule keeps open. |
| AlertOutcomes.JudgedIs | backend/app/alerts.py:204-345 | Offline by seconds since it was seen, disk by alert and clearing level, patches, silence and certificate by days, passcode by what the phone says; zero and no threshold mean the default. |
| AlertRules.DiskAlertsNeedMovement | backend/app/alerts.py:223-242 | Over any run of ticks with a fixed enabled disk rule and no maintenance, n alerts, n at least two, need more than (n-1) times (alert - clear) points of downward disk movement. |
| AlertRules.TickSettlesIff | backend/app/alerts.py:204-265 | A second tick over the same state changes no alert, except exactly a disk reading between the alert level and a clearing level set above it; the stock settings have none. |
| AlertRules.DiskFlipsWithEachTick | backend/app/alerts.py:223-242 | Such a disk: at 92 percent, with alert level 90 and clearing level 95. |
| AlertRules.TimeOnlyRaises | backend/app/alerts.py:207-258 | With unchanged device state, time only turns verdicts towards raising: what is overdue stays so. |
| Alerts.AlertTable.Fire | backend/app/alerts.py:87-99 | One new open row; fire and resolve alternate per device and rule, and at most one row is open. |
| Alerts.AlertTable.Resolve | backend/app/alerts.py:102-107 | That row is closed for good; alternation is kept. |
| Alerts.AlertTable.Ack | backend/app/alerts.py:126-150 | The first to acknowledge an open alert keeps the byline; unknown and resolved ones are refused. |
| Alerts.AlertTable.CloseUnwatched | backend/app/alerts.py:182-187 | Exactly the open alerts of unknown devices and of missing or disabled rules are closed. |
| Alerts.AlertTable.CheckDevice | backend/app/alerts.py:191-265 | Every rule type of one device is decided as its verdict says, and no other device's rows change. |
| Alerts.AlertTable.DeleteForDevice | backend/app/alerts.py:457-469 | A deleted device's alerts go, and its history with them; fires and resolves of every other device still alternate, and its open alerts stay open. |
| Alerts.AlertTable.Announce | backend/app/alerts.py:267-286 | Exactly the open, unsent alerts whose push gets through become notified. |
| Alerts.AlertTable.Evaluate | backend/app/alerts.py:164-345 | After a tick each alert is open exactly if its type's conditions on the device say so of whether it was, and none of an unknown device is; rows are never reopened or rewritten, fires and resolves alternate, and an open alert is notified unless its push failed. |
| Outbox.StepKeeps | agent/client.go:63-85 | Every enabled step of any goroutine, reader or serve loop keeps the order of each goroutine's messages, complete while the loop serves, and the queue within 64. |
| Outbox.WireIsPrefix | agent/client.go:230-292 | Over any run: the queue never exceeds 64, what each goroutine said is started, output*, one result (then perhaps a report), and until cancellation the wire has a prefix of it; after it, a subsequence. |
| Outbox.OneResult | agent/client.go:63-85 | A job run to its end has said exactly one result, and the wire has it at most once whatever was given up. |
| AgentJob.RunJob | agent/jobs.go:90-134 | On every branch the job is announced, its writes follow in order, and one result comes last: timeout exactly if the shell is supported and the limit passed, failed exactly if it is not or the command could not be run, done with the exit code otherwise; what failed it is the last output. |
| AgentJob.RunPatchInstall | agent/patches.go:50-78 | The same of an install, followed by one report of what is pending; one that succeeds after its limit is done. |
| Outbox.RoomForSixtyFour | agent/client.go:63-85 | There is room for a message exactly while fewer than 64 wait. |
| Outbox.HeldUpIff | agent/client.go:76-85 | A goroutine with a message waits exactly while the queue is full and nothing is cancelled; without one nothing stops it. |
| Outbox.LoopEndsIff | agent/client.go:253-292 | The serve loop ends exactly on a kept read error, on cancellation, and on a write of its own or a queued message that fails. |
| Outbox.FullOutboxMoves | agent/client.go:223-229 | With a full queue and any number of blocked senders the serve loop can go on, and one message makes room for each of them. |
| Outbox.EverythingGetsThrough | agent/client.go:253-267 | Left alone, loop and waiting senders bring everything said onto the wire, in order and complete. |
| Outbox.EveryoneGetsAway | agent/client.go:305-321 | After cancellation loop, reader and every blocked sender can finish, room in the queue or not. |
| WireSize.CostIsAtMost18 | backend/app/routers/patches.py:82-91 | No character costs more than 18 bytes in both encodings together, and each beyond the basic plane exactly 18. |
| WireSize.MessageCost | backend/app/jobs.py:164-185 | The exact byte length of the job message from what its ids cost. |
| WireSize.SelectionsFit | backend/app/routers/patches.py:94-141 | Every accepted explicit selection of at most 400 ids of at most 128 characters makes a message under 1 MiB. |
| WireSize.FullIdsFitIff | backend/app/routers/patches.py:82-91 | Ids of 128 characters beyond the basic plane fit up to 453 of them and no more, so 400 do and 500 do not. |
| WireSize.SelectionRoundTrip | backend/app/jobs.py:176-180 | The list kept in the job's command column reads back as the selection. |
| WireSize.Selected | backend/app/routers/patches.py:120-132 | A selection is sent exactly if every id is pending, each id once. |
| WireSize.OnceIsInOrder | backend/app/routers/patches.py:120-123 | Of two ids sent, the first was mentioned before every mention of the second. |
| PatchAge.PatchTable.ApplyScan | backend/app/patches.py:74-111 | The table is exactly the old one with this device's rows replaced by the report's: first 2,000 items, ids trimmed, the last of an id, severities normalised, `detected_at` kept; other devices' rows stay. |
| PatchAge.SeverityIs | backend/app/patches.py:69-71 | `critical`, `important`, `moderate` and `low`, letter by letter and each letter small or capital, mean their severity, and nothing else does. |
| PatchAge.SeverityOfWord | backend/app/patches.py:69-71 | A reported word means a severity exactly if it is that word in any case; everything else is `other`; each word reads back as its severity. |
| PatchAge.PatchTable.OldestPendingSecurity | backend/app/patches.py:150-163 | The least `detected_at` among the device's security patches, none exactly if it has none. |
| PatchAge.ScanIs | backend/app/patches.py:74-111 | Row by row: the device's patches are those some entry of the first 2,000 names by its trimmed id, with the last such entry's severity and the first 300 characters of its title, found when first there. |
| PatchAge.OpenPatchesAreTheLastReport | backend/app/patches.py:74-111 | Over any history of scans of any devices, a device's patches are those its last report names. |
| PatchAge.DetectedWhenTheRunBegan | backend/app/patches.py:77-79 | Over any history, `detected_at` is the time of the scan that opened the current unbroken run of reports naming the patch. |
| PatchAge.OldestIsABeginning | backend/app/patches.py:150-163 | What the overdue alert goes by is the beginning of such a run. |
| Dots.SeedStaysInRangeIff | frontend/src/boot/bootPlan.ts:50-56 | The generator's next state lies in [1, 2^31-2] exactly if its state is no multiple of 2^31-1. |
| Dots.Rng.Below | frontend/src/boot/bootPlan.ts:107-109 | A drawn index is in range and the generator stays usable. |
| Dots.DrawnIs | frontend/src/boot/bootPlan.ts:50-56 | The next state is 16,807 times the last modulo 2^31-1, and a draw its share of the bound, rounded down. |
| Dots.FirstCountsAreClose | frontend/src/boot/bootPlan.ts:94-95 | The rounded counts add up to within three of n. |
| Dots.FixRounding | frontend/src/boot/bootPlan.ts:96-101 | The correction loop ends with counts adding up to n, none negative, each within three of its rounded share, and every occurring state kept if n is enough. |
| Dots.Shuffle | frontend/src/boot/bootPlan.ts:107-111 | The in-place shuffle is the described series of trades. |
| Dots.MixedIsAPermutation | frontend/src/boot/bootPlan.ts:107-111 | Which only permutes. |
| Dots.AssignDotStates | frontend/src/boot/bootPlan.ts:89-113 | n dots, none of a state that does not occur, each state within four of its exact share, and every occurring state there if and only if n is at least their number. |
| Dots.OneDotForTwoStates | frontend/src/boot/bootPlan.ts:89-113 | One dot for two occurring states: one of them has none. |
| Csv.CellRoundTrip | frontend/src/csv.ts:13-18 | A cell reads back as its text after the formula guard, whatever separator follows. |
| Csv.GuardIs | frontend/src/csv.ts:7-16 | A cell that begins with one of the six formula characters gets an apostrophe, no other does. |
| Csv.QuotedIff | frontend/src/csv.ts:17 | A cell is quoted exactly if it holds a quote, a semicolon or a line break, or has a blank at either end. |
| Csv.ExampleDocument | frontend/src/csv.ts:20-23 | A small document, character by character. |
| Csv.DocumentRoundTrip | frontend/src/csv.ts:20-23 | Every document reads back, by section 2 of RFC 4180 with semicolons, as its cells; an empty row as one empty cell. |
| Csv.CellsComeBackIff | frontend/src/csv.ts:20-23 | The cells come back exactly if header and every row have one. |
| Csv.EmptyRowGainsACell | frontend/src/csv.ts:20-23 | Such a document: a row without cells reads back as one empty cell. |
| Csv.NoFormulaIsRead | frontend/src/csv.ts:7-16 | No cell read starts with a formula character. |
| LogRing.RingBuffer.Write | agent/logbuf.go:21-43 | Whatever the chunking, the ring is the last `max` non-empty CR-trimmed complete lines of all that was written and the carry the text after the last newline; the loop ends. |
| LogRing.RingBuffer.Snapshot | agent/logbuf.go:46-52 | At most `max` lines, oldest first. |
| LogRing.KeptIs | agent/logbuf.go:28-36 | A line is kept without its trailing carriage returns, and not at all if nothing else is in it. |
| LogRing.LinesComeBack | agent/logbuf.go:24-38 | Lines written one below the other are the lines kept, empty ones aside, and the rest is the carry. |

## Left out

- Marker.ObjectRoundTrip: JSON values other than strings inside a marker are a parameter of the reader, since the printer writes only strings.
- Jobs.TerminalIsFrozen: exit times and the live subscriber queues of a job are not part of this model.
- AgentSocket.Backend.OnResult: it says which action is to be closed with which word; the closing itself is `ActionStore.Store.OnFinished`, and the interleaved system of `ActionRuns` couples the two.
- JobsTable.JobStore.SweepStale: read and write in one piece here; `JobRaces` takes them apart for one row.
- JobsTable.JobStore.AppendOutput: likewise.
- AgentSocket.Backend.Store: the vault is the sequence of what was stored; that a later entry of the same label on the device replaces the earlier one is not part of this model.
- Isolation.NonInterference: what a report does to vault and row after the filter is one step; a job id or exit code beyond 64 bits is not a report of the model; the rows a deletion finds and their filters go in one step.
- JobLog.LogOfAJob: one socket, since a job's sender belongs to the connection it was started on (agent/client.go:166-196), although the comment on the gate speaks of an agent that reports the rest over its next one; every message arrives, and nothing else happens in between; what a broken connection loses is said by `Outbox.WireIsPrefix`, and that other devices' reports make no difference by `Isolation.NonInterference`.
- ActionSelection.MergeIsCarriedIff: which updates a selection comes to is not part of this model, only whether it is for security updates alone.
- MdmRuns.InvariantOverRuns: one handler at a time, as the binding invariant is meant; `MdmRuns.BindingsHoldThroughoutIff` says what overlapping requests leave of it.
- ActionStore.Store.RunDue: one item is one step, so a job result cannot arrive between its send and `mark_dispatched`; the per-device lock is in `ActionRuns`, not in this method.
- ActionStore.Store.OnFinished: looking the action up and closing it is one step.
- Alerts.AlertTable.Evaluate: a push that raises instead of failing, the recovery pushes and the message texts are not part of this model; the six inline branches per device share one method.
- Outbox.StepKeeps: goroutines and channels are steps of a state machine, not Dafny loops; messages always marshal.
- WireSize.SelectionsFit: the order of fields and the separators are those of the two JSON encoders; a job id has at most 19 digits.
- PatchAge.PatchTable.ApplyScan: report fields are text; what Python's `str` makes of other JSON values is not part of this model.
- AgentJob.RunJob: running the process is a parameter (what it writes, how it ends, whether the limit passed); the text of a write is what the JSON encoder makes of its bytes, so a character split between two writes is not one here.
- Dots.AssignDotStates: shares and draws are exact fractions; floating-point rounding at a tie could move one dot or one trade.
- Dots.Shuffle: the draws depend on the fixed seed; nothing is claimed about their distribution.
- Csv.DocumentRoundTrip: numbers are cells by the text they print as.
- LogRing.RingBuffer.Write: the mutex is left out; one write is one step.
- SQLite, HTTP, WebSocket and FastAPI plumbing, audit writes, logging and push clients: tables are maps, sends succeed or fail by parameter.
- Cryptography, password hashing, certificate and property-list decoding: opaque or replaced by fresh numbers.
- Process execution, package managers, host probes and wake-on-LAN.
- The metrics rollup: its raw cutoff is not aligned to the hour, so exact aggregates do not hold.
- Version comparison of mixed parts: it is not transitive.
- Reconnect backoff, rate limiter, pagination, CRUD and role checks, React components: true but easy.
- Installing everything pending has no size bound in the source, so none is claimed.
