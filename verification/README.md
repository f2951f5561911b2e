# Models of tclaude's durable protocols and portable formats

tclaude is written in Go. This project models the parts of it that are hardest to get right and proves what they promise:

* the supervised self-update, a write-ahead journal with recovery (`UpdateJournal`, `UpdateService`, `UpdateGuardian`);
* the Portable Agent Format: its ZIP directory parser (`LittleEndian`, `ZipDirectory`, `ZipLayout`), its digests
  (`PafDigest`), the reader's checks and the streaming writer (`PafArchive`, `PafAgreement`, `PafWriter`, `PafHidden`, `PafNames`), the privacy
  rewrite (`PafRewrite`), transcripts (`Transcript`, `TranscriptRoundTrip`) and the duplicate-key walk (`JsonKeys`);
* the Portable Workflow Format (`WorkflowSummary`, `WorkflowListing`, `Workflows`, `WorkflowFiles`, `EmbeddedWorkflows`);
* credential transactions (`CredentialText`, `Credentials`);
* the rotating log writer (`LogRotation`);
* the daemon client's retry loop against the daemon's idempotency ledger (`DaemonClient`);
* shell quoting and the statement lexer (`ShellWords`);
* the script job service (`ScriptJobs`).

Objects that the Go code mutates are classes here, and its loops are loops. Each such method is tied to a specification
function or to an invariant, and the main theorems are about whole runs: `UpdateGuardian.Lifetime`, `PafWriter.Build`,
`TranscriptRoundTrip.Convey`, `WorkflowFiles.WriteThenRead`, `LogRotation.Drive`, `ScriptJobs.Interleave`.

## How the models are set up

* A process may die before or after every durable write of the self-update (`Step`, with `:-` passing the death on). With
  `faulty` every read, the one of status.json at start-up included, and every write may also fail, a write with its effect
  in place or not. There a digest is a datatype that holds
  the image it was made of, so equal digests mean equal images.
* SHA-256, JSON text, the template parser, `checkText`, trimming and the encoded size of a manifest are function
  parameters. What is assumed of them stands in the `requires` of the member that needs it: hashes are 64 lower-case
  hexadecimal characters, decoding undoes encoding, and contents that are compared through their hashes do not collide.
  Collision freedom is asked of the finite set of contents at hand only.
* A PAF file's content is modelled decoded (`PafArchive.Data`): which schemas a document meets, which extension ids it uses
  and what it refers to. Bytes matter for sizes and hashes alone.
* Clocks are arbitrary non-decreasing inputs; the release an update stages, health checks, lost and late messages and
  authority checks are nondeterministic. The releases there are, and what somebody else does to credential files meanwhile, are
  inputs, as are whether reads and writes (`faulty`) or the writes of a credential rollback (`flaky`) may fail, and whether
  anything outside may refuse (`smooth`: authority is given, releases can be had, children start and are healthy). So the
  contracts say both what a success means and when there has to be one.

## Where the code does less than one would like

Each of these comes with the condition under which the property does hold.

* A restore or an undo that gives up can leave a mix of binaries behind a settled job, and so can a start that cannot read
  status.json: it ignores the journal and launches whatever is installed. `UpdateJournal.GivingUpExactly` and the
  contracts of `RestoreSupervised`, `BackOut` and the service's constructor say exactly when. Crashes alone never do,
  as long as no journal file is over the 1 MiB that is read back, which nothing checks when it is written
  (`UpdateGuardian.Lifetime`).
* A retried mutation is let through at most once if and only if it arrives at most once, or its route is covered by the
  idempotency middleware and the last attempt arrives within 30 minutes of the first (`DaemonClient.GrantedExactly`). Support is
  announced for the whole daemon but not every route is covered, so a dashboard capture can be repeated
  (`DaemonClient.CaptureRepeats`).
* Lowering `keep` over a gap in the slots can lose bytes from the middle of the log (`LogRotation.UnsafeLoses`); a failed
  reopen makes such a gap (`LogRotation.UnsafeReached`).
* The PAF writer looks for extension keys by a byte search, the reader by walking the document. A key spelled with escapes
  passes the writer, and no reader opens the archive (`PafHidden.FinishHidden`). A `Close` that fails
  behind its manifest and is called again writes a second manifest. The reader bounds the archive file, the writer only its
  uncompressed content. These and the other duties the writer leaves to its
  callers are `PafWriter.Writer.Duties`; meeting them is necessary and sufficient (`PafWriter.Writer.Close`), provided that
  metadata, contexts and attachments were written by the calls made for them.
* `WithPrivacy` computes the digest of a link of an unknown kind again (`PafRewrite.LinksKeptExactly`), while
  everything else about the links is carried over.
* Media of a text or summary block without text is dropped without a record when it is written, and media of a block of an
  unknown kind when it is read (`TranscriptRoundTrip.RecordedExactly`, `TranscriptRoundTrip.UnreadExactly`,
  `TranscriptRoundTrip.Convey`).
* A job whose final record cannot be saved is failed in memory, and a restart gives it another record
  (`ScriptJobs.Interleave`).
* Writing a workflow never turns a whole template into JSON; reading it does, for the scan for paths. A layout coordinate that
  is not a number (`.nan`) is in no reference and is refused by no check: such a template is written, and the file does not
  open. `ScanPaths` tells beforehand (`WorkflowFiles.WriteThenRead`, `WorkflowFiles.ScanPaths`).
* A workflow can be embedded in an envelope that is then too large to be opened (`EmbeddedWorkflows.EmbedAndOpen`).

## Model

| member | source | states |
|---|---|---|
| UpdateJournal.MixedMeansArmed | pkg/selfupdate/guardian.go:66-78 | write-ahead rule: a binary that differs from its pre-job image is only seen while the durable job names a recovery phase and the manifest recovery reads carries this job's id, backups equal to the pre-job images and hashes its checks accept; `UpdateGuardian.Lifetime` gives this for every reachable disk |
| UpdateJournal.ReplacingKeepsJournal | pkg/selfupdate/service.go:419-435 | replacing any subset of the binaries by their new images keeps the journal while it asks for recovery |
| UpdateJournal.SavingKeepsJournal | pkg/selfupdate/service.go:171-189 | a journal write keeps the rule whenever the new durable job is covered by recovery data, or nothing has changed, or everything has |
| UpdateJournal.PreparingKeepsJournal | pkg/selfupdate/service.go:379-418 | before the replacing phase is durable, copies, manifests and the target may change freely |
| UpdateJournal.FreshJobJournal | pkg/selfupdate/service.go:132-170 | a queued job starts a new span: what is installed is what it began with |
| UpdateJournal.RecordsDoNotMatter | pkg/selfupdate/service.go:171-177 | a job record the status does not name yet does not affect the journal |
| UpdateJournal.TracedWhole | pkg/selfupdate/service.go:379-418 | binaries that are all old or all new are the first installation or one whole release, and match the hashes of every manifest the newest job has written |
| UpdateJournal.TracedFresh | pkg/selfupdate/service.go:132-170 | a fresh job begins over a coherent installation, and no manifest is its own yet |
| UpdateJournal.TracedBackup | pkg/selfupdate/service.go:379-418 | the backup manifest of a running update: what it installs is one release, and a rollback to it leads back to a coherent installation |
| UpdateJournal.TracedUndo | pkg/selfupdate/service.go:486-519 | the undo manifest of a running rollback: what it installs is the coherent installation the backup holds |
| UpdateJournal.TracedVersions | pkg/selfupdate/supervised.go:30-67 | none of this depends on the version strings of the binaries |
| UpdateJournal.VersionsDoNotMatter | pkg/selfupdate/supervised.go:30-67 | recording other version strings changes neither the journal nor the all-or-nothing property |
| UpdateJournal.GivingUpExactly | pkg/selfupdate/service.go:439-447 | whichever binaries were put back before giving up, the rest is all old or all new if and only if no changed binary is left new, or every changed binary still is |
| UpdateJournal.StoppedRestoreLeavesAMix | pkg/selfupdate/guardian.go:160-191 | a restore that stops behind its first entry, with a later changed binary new, leaves a mix, and the job settled as failed is outside the journal |
| UpdateJournal.MixExample | pkg/selfupdate/guardian.go:160-191 | an armed disk of two binaries where this happens |
| UpdateService.TimelineExtends | pkg/selfupdate/supervised.go:15-28 | the history of durable jobs stays ordered when a follower is appended: a settled job never becomes pending again and a deadline never moves later |
| UpdateService.Service.constructor | pkg/selfupdate/service.go:52-75 | start-up reads the journal back; a status that cannot be read, or is over 1 MiB, is ignored, and that loses the installation exactly when the binaries are a mix |
| UpdateService.Service.SaveJob | pkg/selfupdate/service.go:171-177 | two durable writes; after any crash or failure the disk holds the old status or exactly the new one, and the journal survives if the job may be journaled |
| UpdateService.Service.EnterPhase | pkg/selfupdate/service.go:178-189 | the phase is durable when it returns true, and the journal is kept on every outcome |
| UpdateService.Service.Undo | pkg/selfupdate/service.go:439-447 | puts entries back in reverse order, going on past failures; says which are back, and all are unless a write fails |
| UpdateService.Service.BackOut | pkg/selfupdate/service.go:424-447 | a failed replacement says which binaries are back; the result is lost if and only if that leaves some changed binary new and another old |
| UpdateService.Service.ReplaceNext | pkg/selfupdate/service.go:423-434 | one more binary is replaced, under the journal |
| UpdateService.Service.ReplaceAll | pkg/selfupdate/service.go:422-435 | all binaries at their targets, or all old or all new after an undo, or a recorded loss, or a crash in between with recovery armed; it gives up only over a failing read or write or a refusal |
| UpdateService.Service.BackUp | pkg/selfupdate/service.go:379-409 | copies every binary aside and hashes it; each entry names its pre-job and its target image |
| UpdateService.Service.SaveBackup | pkg/selfupdate/service.go:410-418 | a saved manifest with this job's id restores the pre-job images from any mix; the target is then the staged release, and as it was if the manifest is not there |
| UpdateService.Service.Prepare | pkg/selfupdate/service.go:376-421 | the replacing phase becomes durable only behind a manifest that arms recovery; what is to be installed is a release with the tag asked for |
| UpdateService.Service.Replace | pkg/selfupdate/service.go:422-437 | replaces under the armed journal; a success asks for a restart |
| UpdateService.Service.Apply | pkg/selfupdate/service.go:330-438 | a success means that every binary already has the version asked for, or that every binary is that of a release with that tag, the backup is this job's and recovery is armed; a failure needs a failing read or write, a refusal, no such release, or a backup directory that exists; nothing changed, or the loss is on record |
| UpdateService.Service.ReleaseInstalled | pkg/selfupdate/service.go:422-437 | binaries at their staged targets are those of the release |
| UpdateService.Service.CopyCurrent | pkg/selfupdate/service.go:486-507 | the present images are copied aside before a rollback; it fails only over a failing read or write, a damaged backup or a foreign binary |
| UpdateService.Service.WriteUndo | pkg/selfupdate/service.go:508-516 | the undo manifest restores the images the rollback began with; the target is then what the backup holds |
| UpdateService.Service.SaveUndo | pkg/selfupdate/service.go:486-519 | as durable data it arms recovery of the rollback |
| UpdateService.Service.RollBack | pkg/selfupdate/service.go:468-533 | a success asks for a restart with every binary at its backup and recovery armed; a failure needs a failing read or write, a refusal, or no readable and intact backup of what is installed |
| UpdateService.Service.Admit | pkg/selfupdate/service.go:132-170 | refuses, changing nothing, a downgrade, an update from an unknown version, and everything while a job is active or pending; an admitted job is durable, new and begins with what is installed |
| UpdateService.Service.Enqueue | pkg/selfupdate/service.go:171-177 | either nothing began, or the job is durable, its span begins with the installed files and it is on the log of jobs with them |
| UpdateService.Service.Run | pkg/selfupdate/service.go:190-245 | whatever the job does, the journal is kept, and it ends idle (all old or all new) or ready for recovery with its release, or its backup, installed; an update on record as succeeded found every binary at its version; one that asks for a restart is no downgrade; when nothing fails or refuses, it is made unless there is nothing to be had |
| UpdateService.Service.Release | pkg/selfupdate/service.go:205-224 | the release lookup and the update: the same for the tag that was found |
| UpdateService.Service.Work | pkg/selfupdate/service.go:190-224 | a rollback, or a release lookup and an update |
| UpdateService.Service.SaveResult | pkg/selfupdate/service.go:225-244 | the result of a job is saved without losing the journal |
| UpdateService.Service.HealthDeadline | pkg/selfupdate/supervised.go:15-28 | a deadline is set once, or replaced by an earlier one |
| UpdateService.Service.FinishSupervised | pkg/selfupdate/supervised.go:30-67 | settles the job durably as complete, rolled back or failed; the current version changes only on success or rollback; the binaries are not touched |
| UpdateService.Service.Settle | pkg/selfupdate/supervised.go:30-67 | a settled job is saved over binaries that are all old or all new |
| UpdateService.Service.VerifySupervised | pkg/selfupdate/service.go:448-467 | succeeds only if the backup is the update's own and every binary is the job's target image, and then fails only over a failing read or an oversized manifest |
| UpdateService.Service.CheckRestore | pkg/selfupdate/supervised.go:78-104 | accepts only the job's own manifest with intact backups of binaries that are old or new; cannot refuse an armed journal unless a read fails |
| UpdateService.Service.RestoreSupervised | pkg/selfupdate/supervised.go:72-119 | from any mix: success means every binary is at its pre-job image, a crash keeps recovery armed, a manifest over 1 MiB is refused, and giving up is a loss if and only if some changed binary is left new and another is not |
| UpdateService.Service.TryRestore | pkg/selfupdate/supervised.go:75-119 | giving up always keeps the journal, says which binaries are back, and needs a failing read or write or a file over the limit; nothing is written unless the checks pass |
| UpdateService.Service.PutAllBack | pkg/selfupdate/supervised.go:113-117 | the restore loop: it stops at the first failure and says which binaries are back |
| UpdateService.Service.RestartFailed | pkg/selfupdate/service.go:249-263 | marking a failed restart keeps the journal and the all-or-nothing property |
| UpdateGuardian.Guardian.Launch | pkg/selfupdate/guardian.go:80-84 | the launched child is new, owned and live, and the peak of live children is kept; with none live before, it is the only one |
| UpdateGuardian.Guardian.TryCandidate | pkg/selfupdate/guardian.go:138-146 | launches the installed binary only when every file is the job's target; success means this child passed the health check for that version; when nothing fails or refuses, an installed target is taken |
| UpdateGuardian.Guardian.Expected | pkg/selfupdate/guardian.go:127-137 | the version recovery expects: the job's, or the one the backup names; none only over a failing read or an unusable manifest |
| UpdateGuardian.Guardian.StopChild | pkg/selfupdate/guardian.go:118-126 | afterwards no child is live, or stopping failed and it is still owned |
| UpdateGuardian.Guardian.Finish | pkg/selfupdate/guardian.go:176-185 | settles the job, keeping the all-or-nothing property, the span and its recovery data; records exactly the version it puts in force, with the health check passed and whether the child is live |
| UpdateGuardian.Guardian.Recover | pkg/selfupdate/guardian.go:110-175 | within the span the job began with: success leaves every binary at its target or every binary at its old image, with the job settled; at most one child; versions only after a passed health check; a loss is over the binaries as they then are; the first thing made durable is a deadline of 60 seconds from now or the job's earlier one; when nothing fails or refuses it succeeds, and an installed update completes with its version in force |
| UpdateGuardian.Guardian.TryOrFallBack | pkg/selfupdate/guardian.go:127-175 | the same from where no child is left |
| UpdateGuardian.Guardian.FallBack | pkg/selfupdate/guardian.go:150-175 | the restoring half of recovery: whenever it returns, the binaries are all as the job found them or all as it installs them, or that mix is on record as lost; when nothing fails or refuses, they are as the job found them and it is settled as rolled back |
| UpdateGuardian.Guardian.ServeRestored | pkg/selfupdate/guardian.go:164-175 | the restored version is recorded only after a live child passed its health check for it; the span stays |
| UpdateGuardian.Guardian.Start | pkg/selfupdate/guardian.go:66-88 | from any journaled state, its journal read or overlooked, a successful start leaves all binaries as the newest job found them or all as it installs them, unless such a mix was lost; when nothing fails or refuses it succeeds |
| UpdateGuardian.Guardian.Restart | pkg/selfupdate/guardian.go:89-109 | recovery in place at the end of a job, within its span |
| UpdateGuardian.Guardian.Serve | pkg/selfupdate/service.go:190-264 | one job from admission to its settled result: at most one live child, every recorded version proven by a live child, the journal kept; its span begins with the files at its admission; when nothing fails or refuses, an update that is asked for ends complete with the binaries of its release, or finds nothing to do or nothing to be had |
| UpdateGuardian.Guardian.Carry | pkg/selfupdate/service.go:190-264 | the same for an admitted job |
| UpdateGuardian.ServeAll | pkg/selfupdate/guardian.go:195-218 | any number of jobs in one process keeps at most one live child, proven versions, the journal with its log of jobs, and the history |
| UpdateGuardian.Open | pkg/selfupdate/service.go:52-75 | a process starts from what the last one left, with any build version and perhaps without its journal |
| UpdateGuardian.Live | pkg/selfupdate/guardian.go:66-191 | one process from start to death hands on a journaled disk, or a loss it has on record; what it started is judged by the span the process was handed |
| UpdateGuardian.Started | pkg/selfupdate/guardian.go:66-88 | what is installed after a start without a loss is one coherent set, matches the manifests of the durable job, and is all old or all new of that job's entry in the log |
| UpdateGuardian.HandedOn | pkg/selfupdate/supervised.go:30-67 | what a process leaves for the next one does not depend on the versions it recorded |
| UpdateGuardian.Lifetime | pkg/selfupdate/guardian.go:66-191 | crash atomicity over any number of processes, jobs and crashes, in terms of inputs and real outputs: unless a read or write fails or a journal file is over 1 MiB, every start that succeeds finds the first installation or one whole release, and by the hashes of every manifest its durable job wrote all binaries are old or all are new; otherwise this holds of every start before the first loss, and a loss is a real mix; each such start is all old or all new of the entry of its durable job in the log of jobs; deadlines never move later before a loss; without one the final disk, wherever the last process died, obeys the write-ahead rule; at most one child is ever live and every recorded version was proven by one |
| ZipDirectory.LocalHeaderOffsets | pkg/paf/zipcheck.go:29-133 | for every byte string the parser stays in bounds, terminates and computes the specified parse |
| ZipDirectory.ScanHeaders | pkg/paf/zipcheck.go:84-131 | the loop over directory headers computes the recursive parse |
| ZipDirectory.ScanExtra | pkg/paf/zipcheck.go:100-125 | the loop over extra fields finds the ZIP64 offset the specification finds |
| ZipDirectory.Signatures | pkg/paf/zipcheck.go:11-19 | the four record signatures, as bytes |
| ZipDirectory.HeaderRefused | pkg/paf/zipcheck.go:84-131 | a header without its signature, with less behind it than it announces, or with a repeated name is refused |
| ZipDirectory.NoEndRefused | pkg/paf/zipcheck.go:30-50 | without an end record within the last 64 KiB there is no directory |
| ZipLayout.LayoutParsed | pkg/paf/zipcheck.go:29-133 | ZIP directory round trip: a laid-out archive (ZIP64 forms included) parses to exactly its name-to-offset map if and only if names are distinct and the directory is within 1 GiB, and is refused otherwise |
| ZipLayout.EndParsed | pkg/paf/zipcheck.go:30-70 | the end record, or the ZIP64 record behind its locator, gives count, size and start of the directory |
| ZipLayout.HeadersRead | pkg/paf/zipcheck.go:83-132 | the headers of a directory are read back exactly when their names are new and distinct |
| ZipLayout.OneHeader | pkg/paf/zipcheck.go:86-130 | one header in front of any rest: its name is recorded with its offset, or refused as repeated |
| ZipLayout.WideFieldRead | pkg/paf/zipcheck.go:100-125 | a ZIP64 extra field yields the offset behind the sizes that are also wide |
| ZipLayout.OffsetOfEntry | pkg/paf/zipcheck.go:126-130 | each entry's own offset is what its name maps to |
| LittleEndian.DecodeEncode | pkg/paf/zipcheck.go:29-133 | little-endian numbers read back |
| PafDigest.ContentDigest | pkg/paf/util.go:122-135 | the loop hashes exactly the rows of every entry but privacy.json, in byte order of their paths: a proper prefix first, else by the first byte that differs |
| PafDigest.SectionDigest | pkg/paf/util.go:140-148 | the same over the entries below one prefix |
| PafDigest.DigestCanonical | pkg/paf/util.go:119-135 | canonicity: two listings have the same digest text if and only if they commit to the same (path, hash) pairs outside privacy.json, whatever their order |
| PafDigest.SectionsFollow | pkg/paf/util.go:137-148 | listings that commit to the same pairs have the same section texts for every prefix |
| PafDigest.RenderInjective | pkg/paf/util.go:130-134 | the digest text determines its rows |
| PafDigest.SortSorts | pkg/paf/util.go:129 | the sorted rows are a permutation in strict path order |
| PafDigest.SortedByPath | pkg/paf/util.go:129 | the sorted rows are the entries in byte order of their paths |
| PafDigest.BeforeIsByteOrder | pkg/paf/util.go:129 | the comparison of strings is byte order, in both directions |
| PafDigest.RowText | pkg/paf/util.go:130-134 | a row is hash, two spaces, path and line feed, in its place in the text |
| PafArchive.CheckEnvelope | pkg/paf/reader.go:667-731 | the reader's envelope check, loop by loop, decides the specified condition in both directions |
| PafArchive.CheckWorkflows | pkg/paf/reader.go:675-690 | items are accepted if and only if keys are valid and distinct, workflow.json is listed and digests match; the map holds each item |
| PafArchive.CheckLinks | pkg/paf/reader.go:699-730 | links are accepted if and only if each resolves, each digest matches and no workflow has two performers for one role |
| PafArchive.CheckLink | pkg/paf/reader.go:700-729 | one link |
| PafAgreement.Agreement | pkg/paf/reader.go:138-163 | writer and reader agree: an archive made from what the writer keeps passes the container, manifest, schema, listing, entry, semantic and envelope checks if and only if the callers' part is met, the size of the container included |
| PafAgreement.ListingAgrees | pkg/paf/reader.go:361-393 | what was written is listed once, and every listed entry is there with its size and hash |
| PafAgreement.EntryAgrees | pkg/paf/reader.go:397-435 | size, hash, schema, extension and context checks of one entry reduce to strict documents and proper lines |
| PafAgreement.EntriesAgree | pkg/paf/reader.go:383-393 | the same for all entries |
| PafAgreement.SemanticsAgree | pkg/paf/reader.go:598-660 | the checks of Close and of AddAgent imply the reader's semantic checks and the manifest schema of agents, one agent at most in an agent file included, apart from the manifest's own extension payloads |
| PafAgreement.EnvelopeAgrees | pkg/paf/reader.go:667-731 | every digest Close fills in is the one the reader recomputes, so the envelope check reduces to written sections and named links |
| PafAgreement.NamesAgree | pkg/paf/reader.go:286-295 | the manifest schema of entries, workflows and links reduces to given roots, keys and kinds |
| PafAgreement.HiddenExtensionRefused | pkg/paf/reader.go:551-566 | a line that uses an undeclared extension is refused by the reader however its key is spelled |
| PafHidden.FinishHidden | pkg/paf/writer.go:315-325 | a run of the writer that finishes such an archive: one agent and one line whose extension key is not spelled out; no reader opens it |
| PafNames.PathsExactly | pkg/paf/util.go:65-76 | entry paths are valid if and only if no segment is empty, "." or ".." and each has safe characters, up to 255 in all |
| PafNames.KeysExactly | pkg/paf/util.go:79 | keys are 1 to 64 lower-case letters, digits and hyphens, by character code |
| PafNames.IdsExactly | pkg/paf/util.go:81-97 | extension ids are dotted labels of up to 128 characters, or the documented one |
| PafNames.AgentFiles | pkg/paf/reader.go:397-435 | where the reader looks for an agent's documents and contexts |
| PafNames.ReservedExactly | pkg/paf/writer.go:109-136 | manifest.json and signatures are reserved |
| PafWriter.Writer.Create | pkg/paf/writer.go:109-136 | an entry opens exactly under the stated conditions; the invariant is kept either way |
| PafWriter.Writer.Finish | pkg/paf/writer.go:168-176 | a closed entry is listed with its size and hash |
| PafWriter.Writer.Put | pkg/paf/writer.go:179-188 | a whole entry is written, or nothing is listed and an entry that did not fit stays open |
| PafWriter.Writer.WriteFile | pkg/paf/writer.go:179-188 | the same for outside callers, noting paths of the format's own |
| PafWriter.Writer.WriteJSON | pkg/paf/writer.go:191-217 | succeeds exactly when size, schema, extension data, path and archive limit allow; ids and members are on record |
| PafWriter.Writer.NoteExtensions | pkg/paf/ext.go:10-15 | the ids a document uses are added to those seen |
| PafWriter.Writer.AddAttachment | pkg/paf/writer.go:221-230 | content is stored once, under its hash |
| PafWriter.Writer.AddAgent | pkg/paf/writer.go:236-263 | succeeds exactly when key, name, native path, both documents and the limits allow; an added agent has both its files and its native blob on record, a failed one is not added |
| PafWriter.Writer.DeclareExtension | pkg/paf/writer.go:80-95 | declares exactly the well-formed dotted or documented ids with a system, a spec and a version of two numbers of at most 63 bits |
| PafWriter.Writer.AddWorkflow | pkg/paf/writer.go:267-276 | keys are valid and distinct |
| PafWriter.Writer.WriteLine | pkg/paf/writer.go:315-325 | record limit, byte search for extensions and archive limit, in this order |
| PafWriter.Writer.CreateContext | pkg/paf/writer.go:285-303 | succeeds exactly when path, header and limits allow; a context lands where the reader looks for one of its scope, whatever the key |
| PafWriter.Writer.AddLine | pkg/paf/context.go:179-184 | one more line exactly when it is no second header and fits, or the context as it was |
| PafWriter.Writer.CloseContext | pkg/paf/writer.go:168-176 | the context becomes an entry |
| PafWriter.Writer.WriteEmbedded | pkg/pwf/embed.go:17-35 | succeeds exactly when the key is new and all files fit under new valid names; then exactly these files were added to its section |
| PafWriter.Writer.PutFiles | pkg/pwf/embed.go:26-34 | the loop over the files |
| PafWriter.Writer.Close | pkg/paf/writer.go:329-457 | closes exactly when its checks, the manifest's size and the key ids allow; the archive holds every file, the sorted entries and filled digests, and the reader accepts it if and only if the callers' duties were met, the size of the container among them |
| PafWriter.Writer.Conclude | pkg/paf/writer.go:382-457 | the same behind the checks |
| PafWriter.Writer.Check | pkg/paf/writer.go:329-381 | the checks of Close, in order |
| PafWriter.Writer.Seal | pkg/paf/writer.go:382-415 | entries sorted in place, digests filled in, and the invariant kept |
| PafWriter.Writer.FillWorkflows | pkg/paf/writer.go:399-402 | each workflow item carries the digest of its section |
| PafWriter.Writer.FillLinks | pkg/paf/writer.go:403-410 | each link carries the digest of its agent or its workflow |
| PafWriter.Writer.Emit | pkg/paf/writer.go:423-451 | one more manifest in the container, and one signature per distinct key id |
| PafWriter.Perform | pkg/paf/writer.go:109-325 | any call keeps the invariant, and proper calls leave nothing stray |
| PafWriter.Build | pkg/paf/writer.go:56-457 | writer implies reader over whole runs: after any calls, failed or not, what Close finishes is accepted by the reader if and only if the callers' part is met; sections embedded without a failure meet theirs |
| PafWriter.ContextFits | pkg/paf/writer.go:285-303 | a context file's name has the scope its header states |
| PafRewrite.WithPrivacy | pkg/paf/rewrite.go:14-52 | succeeds if and only if the document is admissible with declared extensions, fits, and the manifest and keys are in order; every other file is kept, the content digest, all section digests, workflow items and known links are unchanged, and the copy opens if and only if the new document is strict and the keys and the container are not too large |
| PafRewrite.Rewritten | pkg/paf/rewrite.go:10-13 | the digest part of that promise, from the entries alone |
| PafRewrite.LinksKeptExactly | pkg/paf/writer.go:403-411 | every link survives a rewrite if and only if links of unknown kinds already carry their workflow's digest |
| PafRewrite.CopyEntries | pkg/paf/rewrite.go:28-35 | every entry but privacy.json is copied with its path, size, hash and media type, unless there are too many |
| PafRewrite.Recast | pkg/paf/rewrite.go:14-50 | the copy up to Close succeeds exactly when the new document is admissible and there is room |
| PafRewrite.OpenedComplete | pkg/paf/rewrite.go:36-51 | what an opened archive gives its copy passes the checks of Close |
| PafRewrite.CopyEntry | pkg/paf/rewrite.go:54-71 | one entry |
| PafRewrite.CarryPeople | pkg/paf/rewrite.go:36-46 | agents, native blobs and members are carried over |
| PafRewrite.StartCopy | pkg/paf/rewrite.go:15-27 | the new writer starts with the manifest's extensions, workflows and links |
| PafRewrite.OpenedDuties | pkg/paf/rewrite.go:14-52 | an opened archive leaves nothing to answer for but the new document |
| JsonKeys.CheckNoDuplicateKeys | pkg/paf/util.go:155-201 | the decoder's walk decides the specified one |
| JsonKeys.Decoder.WalkValue | pkg/paf/util.go:159-193 | the recursion consumes exactly what the specification consumes |
| JsonKeys.AcceptsExactly | pkg/paf/util.go:155-201 | a token stream is accepted if and only if it is one value whose objects, at every depth, have distinct keys |
| JsonKeys.WalkTokens | pkg/paf/util.go:159-193 | on a value's own tokens the walk consumes exactly them, and refuses exactly on a repeated key |
| JsonKeys.WalkFindsValue | pkg/paf/util.go:159-193 | whatever the walk consumes is some value's tokens |
| JsonKeys.NothingAfter | pkg/paf/util.go:194-200 | anything behind the value is refused |
| Transcript.LossReport.Add | pkg/claude/harness/transcript/loss.go:120-131 | the kind's count grows by n, other kinds' do not, and kind and detail stay unique |
| Transcript.LineFromEntry | pkg/paf/transcript.go:122-156 | the line and the number of media dropped |
| Transcript.Sink.AddAttachment | pkg/paf/writer.go:221-230 | content-addressed store: grows by this content alone |
| Transcript.Sink.AddAll | pkg/paf/transcript.go:21-37 | all inline data is in the store under its hash, exactly when the bytes that are new to it fit |
| Transcript.WriteTranscript | pkg/paf/transcript.go:17-59 | succeeds exactly when the harness is named, no line is over the record limit and everything fits; then the lines, the stored data and the recorded losses |
| Transcript.MediaCache.Fetch | pkg/paf/transcript.go:176-199 | one step of the cache: the two budgets, and answers that stay |
| Transcript.Sticky | pkg/paf/transcript.go:176-199 | what a reference gave once it gives for good |
| Transcript.BlockToTranscript | pkg/paf/transcript.go:251-277 | a block read with the cache, with the losses it adds |
| Transcript.ReadTranscript | pkg/paf/transcript.go:209-249 | succeeds if and only if every line passes its checks; the entries read and the losses recorded, for any budgets, where 64 MiB an item and 256 MiB in all stand in for options that are not positive |
| Transcript.StoredLineOk | pkg/paf/context.go:252-322 | what the writer makes of an entry passes the line rules if and only if its role, origin, kinds and call ids are given |
| TranscriptRoundTrip.RoundTrip | pkg/paf/transcript.go:17-59 | with sufficient budgets, reading what was written gives the normalised transcript if and only if every kept block is of a known kind |
| TranscriptRoundTrip.Budgets | pkg/paf/transcript.go:158-199 | every reference is delivered if and only if each attachment fits the item budget and all of them, counted once, the total |
| TranscriptRoundTrip.EnoughForAll | pkg/paf/transcript.go:158-199 | budgets that hold every inline item, and all of them counted once, suffice |
| TranscriptRoundTrip.KindsKnown | pkg/paf/transcript.go:251-259 | the six kinds of blocks a reader knows |
| TranscriptRoundTrip.WritingConserves | pkg/paf/transcript.go:122-156 | media written, media recorded as dropped and media of blank blocks add up to the media given; lines and recorded empty entries to the entries |
| TranscriptRoundTrip.ReadingConserves | pkg/paf/transcript.go:209-277 | media read, media recorded as dropped and media of unknown blocks add up to the media in the lines, for any budgets |
| TranscriptRoundTrip.RecordedExactly | pkg/paf/transcript.go:127-129 | all media left out is on record if and only if no blank block carries media |
| TranscriptRoundTrip.UnreadExactly | pkg/paf/transcript.go:251-259 | reading loses media without a record only in kept blocks of an unknown kind that carry stored media |
| TranscriptRoundTrip.SilentLoss | pkg/paf/transcript.go:127-129 | counterexample: an entry of one blank block with media |
| TranscriptRoundTrip.WrittenReadable | pkg/paf/transcript.go:17-59 | written lines can be read if and only if every kept entry is named properly |
| TranscriptRoundTrip.Convey | pkg/paf/transcript.go:17-277 | write and read back: when it reads, conservation of media and entries across both loss reports, the round trip when every item and all of them counted once are within the options (67108864 and 268435456 bytes by default), and all lost media on record if and only if no blank block carries media and no kept block of an unknown kind carries stored media |
| WorkflowSummary.SortedKeys | pkg/pwf/pwf.go:417-424 | the names of a map, each once, in byte order |
| WorkflowSummary.Summarize | pkg/pwf/pwf.go:346-407 | the loops compute the derived summary, which `WorkflowListing.SummaryDescribes` says of the templates themselves |
| WorkflowSummary.VisitStep | pkg/pwf/pwf.go:361-402 | one step: its performers and its loops, as the derived summary has them |
| WorkflowSummary.LegacySummary | pkg/pwf/pwf.go:340-407 | with and without role selectors, summaries differ in their roles alone |
| WorkflowSummary.TalliedSame | pkg/pwf/pwf.go:357-403 | the walk gathers the same but for roles, and never fewer role names with selectors |
| WorkflowListing.SummaryDescribes | pkg/pwf/pwf.go:346-407 | what a summary lists: all turns of all templates, steps and stages in order, the names in use in byte order each with its steps in order, programs with their commands, outcomes that go back, parameters and templates |
| WorkflowListing.HumansExactly | pkg/pwf/pwf.go:381-384 | a step is listed as a person's if and only if some listed template has such a performer at that stage (step, plan, check or review) |
| WorkflowListing.ProgramsExactly | pkg/pwf/pwf.go:379-380 | a command is listed if and only if some stage runs it, with profile, command and arguments |
| WorkflowListing.RolesExactly | pkg/pwf/pwf.go:369-375 | a role is listed with a step if and only if an agent of that stage has it as profile or, with selectors, as role |
| WorkflowListing.AssigneesExactly | pkg/pwf/pwf.go:376-378 | an agent is listed with a step if and only if that stage names it |
| WorkflowListing.LoopsExactly | pkg/pwf/pwf.go:395-401 | an outcome is listed if and only if a step has it as a loop, with its bound and its target in the step's own scope |
| WorkflowListing.AllListed | pkg/pwf/pwf.go:360-403 | the turns gathered are exactly those the templates ask for, in order of template, step and stage |
| WorkflowListing.AllBacksListed | pkg/pwf/pwf.go:395-401 | the outcomes gathered are exactly those that go back, in order of template, step and name |
| WorkflowListing.WalkTells | pkg/pwf/pwf.go:360-403 | the walk gathers exactly these turns |
| WorkflowListing.WalkLoops | pkg/pwf/pwf.go:395-401 | and exactly these outcomes |
| WorkflowListing.DigitsRead | pkg/pwf/pwf.go:389-391 | checks are numbered in decimal |
| Workflows.TemplatePathInjective | pkg/pwf/pwf.go:268-274 | different refs have different entry names |
| Workflows.TemplatePathShape | pkg/pwf/pwf.go:268-274 | an entry name is templates/, the id, a slash and the hash of its ref |
| Workflows.IdsExactly | pkg/pwf/pwf.go:56 | template ids are 1 to 128 portable characters, by character code |
| Workflows.CheckClosure | pkg/pwf/pwf.go:306-337 | accepts if and only if the root is there and each id has at most one head, and lists the problems |
| Workflows.ListProblems | pkg/pwf/pwf.go:321-337 | each template's own problems, then its unresolved references |
| Workflows.HeadIsUnique | pkg/pwf/pwf.go:290-300 | an unpinned reference has one answer, wherever the head is listed |
| Workflows.ResolvedExactly | pkg/pwf/pwf.go:288-300 | a pinned reference is answered by that version alone, an unpinned one by a head of its id |
| Workflows.ProblemFree | pkg/pwf/pwf.go:321-337 | there are no problems if and only if no template has any and every reference is answered in the file |
| Workflows.PrepareBundle | pkg/pwf/pwf.go:428-456 | accepts exactly the bundles whose templates parse, match their refs, are distinct and close |
| Workflows.PrepareKeeps | pkg/pwf/pwf.go:428-449 | every prepared template is what its ref says, listed once, the root first |
| Workflows.BundleContent | pkg/pwf/pwf.go:487-514 | accepts exactly the writable bundles; the files are workflow.json, the readme and one entry per template |
| WorkflowFiles.LoadContents | pkg/pwf/pwf.go:732-804 | accepts exactly the acceptable files, the scan for paths at the end included, with the outcome the specification states |
| WorkflowFiles.Scan | pkg/pwf/pathscan.go:205-220 | fails exactly if a template has no JSON form |
| WorkflowFiles.ReadTemplates | pkg/pwf/pwf.go:752-774 | the loop over listed templates |
| WorkflowFiles.AllRead | pkg/pwf/pwf.go:752-774 | every loaded template is what its ref says, from the entry of that ref, listed once |
| WorkflowFiles.BundleLoads | pkg/pwf/pwf.go:487-514 | round trip: the files of every writable bundle are acceptable if and only if its templates have a JSON form, and load to the same templates, heads, root-first order, problems, text and summary |
| WorkflowFiles.FullySummarized | pkg/pwf/pwf.go:786-799 | every accepted file, current or legacy, ends with the full derived summary, role selectors included |
| WorkflowFiles.AcceptedDescribes | pkg/pwf/pwf.go:786-799 | what an accepted file's summary ends up saying is exactly what its templates ask for |
| WorkflowFiles.AcceptedOnce | pkg/pwf/pwf.go:732-804 | there is one way to accept a file |
| WorkflowFiles.WriteThenRead | pkg/pwf/pwf.go:487-564 | the round trip as code: written if and only if writable with no file over the limit, and read back as it was if and only if every template has a JSON form, with the text trimmed |
| WorkflowFiles.ScanPaths | pkg/pwf/pathscan.go:222-231 | for a writable bundle it succeeds if and only if the written file will open, and lists what a reader will be given when there are no blanks around the credits |
| EmbeddedWorkflows.Gather | pkg/pwf/embed.go:52-69 | gathers the section if and only if it is within a workflow file's bounds |
| EmbeddedWorkflows.OpenEmbedded | pkg/pwf/embed.go:39-82 | opens a section that fits, is understood and loads, and refuses no other for its contents |
| EmbeddedWorkflows.OpenWritten | pkg/pwf/embed.go:17-82 | an embedded bundle opens as the bundle it was if and only if it is within the bounds and its templates have a JSON form |
| EmbeddedWorkflows.EmbedAndOpen | pkg/pwf/embed.go:17-82 | through a real envelope: a bundle embedded, closed and opened is the bundle it was if and only if it is within the bounds and its templates have a JSON form; the envelope announces loops exactly if there are some |
| CredentialText.SavedIsReadable | pkg/harnesscredentials/backups.go:33-97 | every backup the code can save satisfies the reader's rules, the 64 KiB bound included |
| CredentialText.CheckBackup | pkg/harnesscredentials/backups.go:54-97 | the reader's loop decides exactly those rules |
| CredentialText.NamesTable | pkg/harnesscredentials/files.go:50-84 | the credential files of each harness |
| CredentialText.Base64Size | pkg/harnesscredentials/backups.go:33-52 | the length of base64 text |
| Credentials.Validate | pkg/harnesscredentials/files.go:218-242 | accepts exactly the bundles whose files are known, distinct, bounded JSON objects |
| Credentials.Store.RestoreFiles | pkg/harnesscredentials/files.go:322-342 | in reverse order every file is put back as saved, going on past failures; nothing else changes, and all are back unless such a write may fail |
| Credentials.Store.Snapshot | pkg/harnesscredentials/backups.go:146-155 | the present content or absence of each file; fails only if one is too large, is not to be replaced or cannot be read |
| Credentials.Store.SaveBackup | pkg/harnesscredentials/backups.go:33-52 | a saved backup is readable and other backups are kept |
| Credentials.Store.BackOut | pkg/harnesscredentials/files.go:306-318 | the replaced files, and no others, are as the snapshot has them, unless the writes of a rollback may fail |
| Credentials.BackedOut | pkg/harnesscredentials/files.go:306-318 | behind such a rollback the whole directory is as before; where its writes may fail, each file has its old or its new content |
| Credentials.Refused | pkg/harnesscredentials/files.go:311-315 | a file somebody else changed is left as they left it, and those replaced before it are put back |
| Credentials.Store.ReplaceOne | pkg/harnesscredentials/files.go:307-317 | one file is replaced only if unchanged since the snapshot; a refusal or failure puts it and those before it back |
| Credentials.Store.ReplaceAll | pkg/harnesscredentials/files.go:306-318 | all files as wanted, with nobody else's change overwritten; or each as before or as somebody else left it; or, if rollback writes may fail, some with their new content |
| Credentials.Store.Receive | pkg/harnesscredentials/files.go:271-321 | all or nothing, for every way others change the files and writes fail: copied means every bundle byte is in place, the backup is the exact prior state and no change of somebody else was overwritten; failed means every file is as it was or as somebody else left it, and if the rollback's own writes may fail, as it was or as the bundle has it; when nothing fails, exactly the valid bundles are copied whose files may be replaced and are not changed meanwhile |
| Credentials.Store.SaveCurrent | pkg/harnesscredentials/backups.go:157-177 | a backup of the present files, made exactly if the harness has some and none is too large, when nothing fails |
| Credentials.Store.FindNewest | pkg/harnesscredentials/backups.go:98-140 | the newest readable backup of the harness, and of those made at once the one with the greatest identifier; none exactly if there is none |
| Credentials.Store.Restore | pkg/harnesscredentials/backups.go:181-247 | the named backup, or the newest of the harness, is in place and the safety backup holds the exact prior state; or nothing changed, with the same exact exceptions; when nothing fails, exactly a readable backup of the harness is restored, over files that can be saved and are not changed meanwhile |
| Credentials.Store.RestoreAndUndo | pkg/harnesscredentials/backups.go:181-247 | a restore and a restore of its safety backup, when both succeed, give back the exact directory |
| Credentials.SafetyUndoes | pkg/harnesscredentials/backups.go:181-247 | the same, from the states alone |
| LogRotation.RotatingWriter.Write | pkg/common/logrotate.go:74-78 | appends through the open descriptor, and to the history |
| LogRotation.RotatingWriter.Rotate | pkg/common/logrotate.go:157-212 | afterwards the descriptor is the file at the active path and the history is still a suffix of everything written, reopen failures included; the names are those of one rotation, or of a discarded log if none is kept |
| LogRotation.RotatingWriter.MaybeRotate | pkg/common/logrotate.go:111-134 | rotates if and only if rotation is on, the size is known and has reached the limit; a missing log is reopened; nothing changes otherwise |
| LogRotation.RotatingWriter.Cascade | pkg/common/logrotate.go:164-188 | every slot moves up by one, the last is dropped and leftovers are swept up to the first gap |
| LogRotation.RotatingWriter.Shift | pkg/common/logrotate.go:168-175 | the countdown loop |
| LogRotation.RotatingWriter.Sweep | pkg/common/logrotate.go:176-188 | the sweep loop |
| LogRotation.RotatingWriter.Reopen | pkg/common/logrotate.go:224-233 | a fresh file at the active path, or nothing changed |
| LogRotation.HistoryKept | pkg/common/logrotate.go:164-188 | cascading loses nothing but the oldest bytes whenever the leftovers have no gap or nothing is dropped |
| LogRotation.UnsafeLoses | pkg/common/logrotate.go:176-188 | that condition is exact: otherwise some contents lose bytes from the middle |
| LogRotation.Drive | pkg/common/logrotate.go:74-233 | any run of writes, ticks, failures and policy changes, from slots without a gap above keep: each tick rotates exactly when the log is due under the policy in force; steady if and only if every change keeps at least one file and does not lower keep over a gap; then the files hold a suffix of everything written and the descriptor is the file at the active path |
| LogRotation.RaisingIsSteady | pkg/common/logrotate.go:94-102 | a run that only raises keep is steady |
| LogRotation.UnsafeReached | pkg/common/logrotate.go:157-212 | four rotations, one of which cannot reopen the log, reach a directory where lowering keep is not safe |
| LogRotation.RotatingWriter.Configure | pkg/common/logrotate.go:94-102 | a new policy keeps the history, and leftovers without a gap stay so when keep is raised |
| DaemonClient.DoRequest | pkg/claude/agent/client.go:643-701 | attempts within both budgets, all with one key and digest, each made again exactly while its outcome and its budget allow and its pause lasts; the caller is given the last reply; with a fresh key the operation is let through at most once if and only if it arrives at most once, or its route is covered and the last arrival, however late, is within the claim's 30 minutes of the first |
| DaemonClient.Attempts | pkg/claude/agent/client.go:655-701 | the loop: the two budgets bound the attempts, each carries the same request and waits its own backoff, and the reply is the last outcome |
| DaemonClient.OnceMore | pkg/claude/agent/client.go:660-700 | one more attempt ends the conversation with its reply, or goes on behind its pause |
| DaemonClient.Send | pkg/claude/agent/client.go:703-714 | the default policy: at most eight attempts, six for a mutation, one if the daemon does not announce support; the same exact condition, whatever the daemon covers |
| DaemonClient.AttachKey | pkg/claude/agent/client.go:772-810 | a mutation gets a key and a digest of its method, path and body; others are left alone |
| DaemonClient.FingerprintBinds | pkg/claude/agent/client.go:772-810 | two requests have the same digest if and only if method, address and body are the same |
| DaemonClient.Daemon.Deliver | pkg/claude/agentd/idempotency.go:97-156 | one attempt, which may arrive at once, behind later ones or never, keeps the account of arrivals, claims and runs |
| DaemonClient.Daemon.Pass | pkg/claude/agentd/idempotency.go:97-156 | attempts under way arrive at any later time, also after the client has given up, and the account is kept |
| DaemonClient.Daemon.Arrive | pkg/claude/agentd/idempotency.go:97-125 | a request on a covered route is let through when it wins the claim, any other always |
| DaemonClient.GrantedExactly | pkg/claude/agentd/idempotency.go:97-125 | at most once, exactly: at most one arrival, or a covered route within the lifetime |
| DaemonClient.CaptureRepeats | pkg/claude/agentd/idempotency.go:49-58 | counterexample: a dashboard capture is retried against a daemon that announces support, is not covered, and two arrivals are both let through |
| DaemonClient.RoutesLeftAlone | pkg/claude/agentd/idempotency.go:52-68 | bulk reads and enrolment are not covered |
| DaemonClient.StewardsLeftAlone | pkg/claude/agentd/idempotency.go:70-82 | nor are the credentials of stewards |
| DaemonClient.ProxiesLeftAlone | pkg/claude/agentd/idempotency.go:97-125 | nor is proxied traffic |
| DaemonClient.AtMostOnceWithin | pkg/claude/common/db/agentd_idempotency.go:29-67 | arrivals within one claim's lifetime run the operation at most once, whatever the ledger held |
| DaemonClient.AtMostOnceExactly | pkg/claude/common/db/agentd_idempotency.go:29-67 | for a fresh key, if and only if |
| ShellWords.SplitStatements | pkg/testharness/copilot_launch.go:540-602 | the lexer's loop computes the specified lexing |
| ShellWords.ActiveRefused | pkg/testharness/copilot_launch.go:540-602 | an unquoted character a shell acts on is refused, whatever is around it |
| ShellWords.UnfinishedRefused | pkg/testharness/copilot_launch.go:540-602 | an open quote and a trailing backslash are refused |
| ShellWords.QuoteLexRoundTrip | pkg/claude/agent/client.go:141-146 | quoting, joining and lexing gives back exactly the original word lists, for all words |
| ShellWords.LexQuoted | pkg/claude/agent/client.go:141-146 | one quoted word is read back in front of any rest |
| ShellWords.LexScript | pkg/testharness/copilot_launch.go:540-602 | a whole script, behind any statements already read |
| ShellWords.BareIsPlain | pkg/claude/agent/client.go:141-146 | a word with a character a shell treats specially is quoted |
| ScriptJobs.Verdict | pkg/noderun/service.go:248-272 | canceled exactly if revoked or stopped, else timed out exactly if it ran out of time, else failed exactly for an error or another exit code, else completed |
| ScriptJobs.Service.Start | pkg/noderun/service.go:167-213 | a job is admitted exactly if the service is open, fewer than four are active, authority is given, its record is saved and the audit succeeds; an admitted job is running and active; a refused one changes no admission |
| ScriptJobs.Service.Finish | pkg/noderun/service.go:214-314 | the job gets its one final record, its verdict if its output and that record are saved and a failure otherwise, in memory and on disk |
| ScriptJobs.Service.SaveFinal | pkg/noderun/service.go:279-306 | a record that cannot be saved becomes a failure |
| ScriptJobs.Service.Close | pkg/noderun/service.go:356-364 | nothing is active or running afterwards, and every admitted job ended once |
| ScriptJobs.Load | pkg/noderun/service.go:92-131 | after a restart no readable job is running, settled ones are as they were and unreadable ones are left alone; it gives up exactly if a job left running cannot be saved |
| ScriptJobs.Interleave | pkg/noderun/service.go:167-364 | any interleaving of starts and ends, then a close or a crash, and a restart: the admitted ids are distinct, asked for and exactly the ones with an end to come; each ends exactly once in its process or is active when it dies; a restart finds none running, gives an ended job the same record if and only if that record was saved, and an active one as interrupted or with the final record the process died over |
| ScriptJobs.RestartFinds | pkg/noderun/service.go:92-131 | what a restart finds, from the disk and the memory of the process before it |
| ScriptJobs.CappedOutput.Write | pkg/noderun/streaming.go:40-56 | the stored stream is the first MaxOutputBytes bytes taken, truncated if and only if more was; a write fails exactly if the file runs out of room before that, and has then taken a prefix |
| ScriptJobs.FollowLog | pkg/noderun/service.go:334-355 | following the offsets from 0 reassembles the file if and only if it is within the pageable limit |
| ScriptJobs.FollowStored | pkg/noderun/service.go:273-287 | every log the service stores, streamed or not, is reassembled by following its offsets |

## Left out

- Release download, the checks of a staged binary, file modes, metadata refresh and unsupervised restarts of the self-update; the releases are arbitrary.
- Directory opening, symbolic links and permissions, in all components.
- JSON Schema validation, JSON text, regular expressions, DEFLATE, SHA-256 and Ed25519; they are parameters or abstract outcomes.
- ZIP: the local header check (pkg/paf/zipcheck.go:138-190), archive comments and compressed sizes.
- PAF: best-effort inspection, version negotiation, required features, signature contents and names, errors of the output stream, and the manifest schema except for agents, entries, workflows and links.
- PAF: `WriteContextFile`, `ChainLosses`, `CountsOnly` and the conversion of loss reports.
- UpdateService.Service.Admit: the outcome of the two hooks and of drawing the identifier is nondeterministic.
- UpdateGuardian.Lifetime: a child that outlives its guardian process is not followed into the next one.
- PafWriter.Build: signature contents, versions and required features are not part of what the modelled reader checks.
- WorkflowFiles.Scan: which paths are found in a text is a parameter.
- PafRewrite.WithPrivacy: the archive was opened under the limits it is written with, and how keys are filtered for a bundle is not modelled.
- PafAgreement.SemanticsAgree: extension payload schemas are one flag per document.
- Transcript.WriteTranscript: the header line counts by its size alone; writing and reading JSON is taken to give back the same line.
- TranscriptRoundTrip.Convey: the lines read are the ones in the archive; opening it is the subject of the archive modules.
- WorkflowFiles.WriteThenRead: workflow.json is taken to decode to what was encoded, so text that JSON cannot carry unchanged is not covered.
- EmbeddedWorkflows.OpenEmbedded: the files of a section are plain text.
- Workflows.ListProblems: problem texts carry the same parts as the original's with simpler wording.
- Credentials.Store.ReplaceOne: somebody else's change comes right before a file is checked; one between that check and the rename, or to a file already replaced, is not modelled.
- Credentials.Store.FindNewest: every backup in the directory can be opened, and has a valid name.
- ScriptJobs.Service.Finish: the script itself, its output files and the finished hook are outcomes.
- DaemonClient.DoRequest: response bodies and the text of errors are not modelled.
- Commands, wire types, simulators, probes, documentation and the web interface.
