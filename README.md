# clamat build and development tooling, modelled in Dafny

clamat's build tools revolve around a process-wide **cleanup stack**
(`packages/build-tools/src/dax.ts`). Scripts register teardown callbacks with
`addCleanup`. They can drop a callback with its `remove()` handle or run it
early. On exit, on a signal or on an uncaught fault, `runCleanupAndExit`
drains the stack newest first. Beside it sits a **spawn log** that
correlates child processes with the tracker token in their environment
(`ChildProcessTracker`).

The Raspberry Pi development servers use both:

- the nbd disk server, the nbd RAM/swap server and the 9p server;
- each brings up a local server, a remote `frps`, a local `frpc` and a remote
  mount or swap, waiting at most 30 polls for each to become ready;
- each stage's teardown is registered as soon as the stage exists.

Around this engine sit several pure helpers:

- the etag comparison of docker labels and the size parser;
- recognisers for SSH targets and docker image names;
- the serial number and PEM encoders of the certificate code;
- the glob translation of dynamic `require` calls in the rollup plugin;
- the device's mDNS answer table and its migration-journal sync.

Finally, four docker image scripts decide whether to rebuild an image from
its etag labels, and tear down loop devices and mounts in a fixed order.

The model has one module per component.

- Pure code is datatypes, functions and lemmas.
- Code that changes state step by step is methods with loops and invariants:
  - `Cleanup.CleanupStack` and `Tracker.SpawnLog` are classes;
  - `Device.MigrationsFolder` is a class;
  - each script is a method that creates its own cleanup stack.
- Commands, their outcomes, captured output, hashes, base64 and the
  operator's answers are inputs (an `Env` or `Outcomes` value, or a function
  parameter). Nothing is executed.

`Cleanup.Drain` is the reference semantics of the drain loop. The class is
proved against it, and the scripts' teardown orders are stated through
`Cleanup.RanTags` of the trace it records.

Where the code has a bug (listed under Findings), the scripts follow the code
as written. The corrected definition is proved beside it, and the migration
sync takes the path reading, as written or intended, as a parameter.

## Model

| member | source | states |
|---|---|---|
| Cleanup.ExitCodeFor | packages/build-tools/src/dax.ts:93-96 | no handled event exits with success; a signal exits with 128 plus its POSIX number, a fault with 1 |
| Cleanup.PopWeight | packages/build-tools/src/dax.ts:74-84 | popping the top callback and registering what it pushes leaves strictly less work, so the drain loop ends even though it re-reads the stack |
| Cleanup.DrainAppend | packages/build-tools/src/dax.ts:74-84 | draining a stack runs the upper part completely, including everything it registers, before anything below it (strict LIFO) |
| Cleanup.UnwoundRunsAll | packages/build-tools/src/dax.ts:74-84 | leaf callbacks each start exactly once, in reverse registration order, whether or not some of them throw |
| Cleanup.PushedRunsNext | packages/build-tools/src/dax.ts:74-84 | a callback that registers another while being drained has it run right after itself, before anything registered earlier |
| Cleanup.ShutdownRuns | packages/build-tools/src/dax.ts:71-87 | a shutdown with only leaf callbacks signals the first controller, starts every callback once newest first, signals the second controller and exits |
| Cleanup.IndexOf | packages/build-tools/src/dax.ts:19 | `indexOf`: the first position holding the identity, or not found exactly when it is absent |
| Cleanup.Erase | packages/build-tools/src/dax.ts:19-21 | `indexOf` plus `splice`: an absent identity leaves the stack as it is; a present one leaves one entry fewer with every other identity kept |
| Cleanup.EraseLast | packages/build-tools/src/dax.ts:19-21 | on a stack without duplicates, erasing the newest identity is a pop |
| Cleanup.EraseDistinct | packages/build-tools/src/dax.ts:24-30 | on a stack without duplicates, erasing removes exactly that identity and keeps the stack duplicate-free |
| Cleanup.CleanupStack.constructor | packages/build-tools/src/dax.ts:11 | an empty stack, cleanup not running, handlers not bound |
| Cleanup.CleanupStack.ScriptCommandsTerminated | packages/build-tools/src/dax.ts:67-87 | a command built before cleanup starts gets `CommandController()` (the choice of lines 166-168), the one the shutdown signals with SIGTERM first, before any cleanup callback starts |
| Cleanup.CleanupStack.TeardownCommandsSpared | packages/build-tools/src/dax.ts:67-87 | a command built while cleanup runs gets the other controller (lines 166-167): the first signal spares it, and it is signalled with SIGINT only after every cleanup callback has started |
| Cleanup.ShutdownShape | packages/build-tools/src/dax.ts:67-87 | a shutdown is a SIGTERM to the first controller, the drain (callbacks starting or failing, no signal), a SIGINT to the second controller and the exit with the given code |
| Cleanup.DrainUnsignalled | packages/build-tools/src/dax.ts:74-84 | draining the stack only starts callbacks and records their failures; it signals no controller |
| Cleanup.CleanupStack.AddCleanup | packages/build-tools/src/dax.ts:12-33 | a function entry is pushed as a new pending entry on top of the stack; nothing else changes |
| Cleanup.CleanupStack.AddPromiseCleanup | packages/build-tools/src/dax.ts:34-64 | a promise entry is only watched: the stack is unchanged, so the drain never waits for it |
| Cleanup.CleanupStack.RemovePromise | packages/build-tools/src/dax.ts:56-63 | `remove()` on a watched promise resolves the returned promise with null once; later calls, or calls after it settled, do nothing |
| Cleanup.CleanupStack.Remove | packages/build-tools/src/dax.ts:24-30 | `remove()` marks a pending entry removed and takes it off the stack; on an entry that ran or was removed it changes nothing (idempotent) |
| Cleanup.CleanupStack.RunPopped | packages/build-tools/src/dax.ts:17-22 | runs a popped entry's callback once, marks it cleaned, appends what it registers on top, and records its start and any failure |
| Cleanup.CleanupStack.Invoke | packages/build-tools/src/dax.ts:16-23 | calling a wrapper runs a pending entry once and takes it off the stack; a cleaned or removed entry is not run again |
| Cleanup.CleanupStack.RunCleanupAndExit | packages/build-tools/src/dax.ts:67-88 | the first call records the trace `Shutdown` gives, empties the stack and exits with its own code; a later call changes nothing and parks |
| Cleanup.CleanupStack.DrainAll | packages/build-tools/src/dax.ts:74-84 | the loop leaves the stack empty and appends exactly `Drain` of the old stack to the trace |
| Cleanup.CleanupStack.DrainOne | packages/build-tools/src/dax.ts:75-83 | one turn pops the top entry, runs it (a failure is logged, not propagated) and leaves less work |
| Cleanup.CleanupStack.BindCleanup | packages/build-tools/src/dax.ts:90-97 | installs the handlers, once; the stack and trace are untouched |
| Cleanup.CleanupStack.OnProcessEvent | packages/build-tools/src/dax.ts:93-96 | with handlers bound, a signal or fault starts cleanup with its exit code, or parks if cleanup already runs; without the handlers the stack and trace are untouched (see Left out) |
| Cleanup.CleanupStack.SettlePromise | packages/build-tools/src/dax.ts:38-55 | a watched promise is marked settled on its first settlement; a rejection then becomes an unhandled rejection that starts cleanup with 1 |
| Cleanup.DrainTurn | packages/build-tools/src/dax.ts:74-84 | one loop turn moves one callback's outcome from what is left to drain into the trace, and leaves less work |
| Tracker.Tracked | packages/build-tools/src/dax.ts:133-136 | `track()` lists no more processes than the log holds |
| Tracker.TrackedAppend | packages/build-tools/src/dax.ts:133-136 | tracking distributes over appending to the log, so later spawns come after earlier ones |
| Tracker.TrackedMembers | packages/build-tools/src/dax.ts:133-136 | a process is tracked exactly when it is recorded with a matching token |
| Tracker.Novel | packages/build-tools/src/dax.ts:115-121 | the spawns announced are of processes not seen before |
| Tracker.Awaited | packages/build-tools/src/dax.ts:144-159 | the wait resolves exactly when a matching spawn is announced before the deadline, and then with such a process |
| Tracker.SpawnLog.constructor | packages/build-tools/src/dax.ts:104-106 | an empty log, no process seen, no listener |
| Tracker.SpawnLog.Track | packages/build-tools/src/dax.ts:133-136 | returns exactly the recorded processes whose token matches |
| Tracker.SpawnLog.OnSpawn | packages/build-tools/src/dax.ts:113-124 | the first spawn of a process is appended and announced; a repeated spawn leaves the log unchanged (at most one record per process) |
| Tracker.SpawnLog.Collect | packages/build-tools/src/dax.ts:107-111 | only the collected process's record can leave the log; every other record stays |
| Tracker.SpawnLog.First | packages/build-tools/src/dax.ts:137-161 | an already-tracked match resolves at once with the first one (through `Tracker.FirstOf`); otherwise the first announced matching spawn; a rejection only when nothing is tracked; the listener count is restored |
| Readiness.ExplainsUnique | development/scripts/rpiNbdDiskServer.ts:139-147 | the observations determine the outcome: at most one of ready, exited early or timed out explains them |
| Readiness.ReadyOutcome | development/scripts/rpiNbdDiskServer.ts:139-147 | the outcome is ready exactly when the process shows the line before exiting within 30 polls |
| Readiness.WaitForText | development/scripts/rpiNbdDiskServer.ts:139-147 | at most 30 polls: an exit seen before a sleep fails, the line seen after it succeeds (even on poll 30), thirty quiet polls time out |
| Etags.ArrayKeyInjective | packages/build-tools/src/dax.ts:271-274 | distinct array indices get distinct `_<i>` keys |
| Etags.GroupKey | packages/build-tools/src/dax.ts:277-279 | the key without a final `_digits`, and the key itself exactly when it has no such suffix |
| Etags.ArrayKeyGroup | packages/build-tools/src/dax.ts:271-279 | every array key falls in the group with the empty name |
| Etags.Etags | packages/build-tools/src/dax.ts:270-276 | an array is keyed `_0`, `_1`, …; a record keeps exactly its keys with the prefix, with the prefix cut off |
| Etags.AgainstInOneGroup | packages/build-tools/src/dax.ts:277-280 | when every `against` key is in one group, the comparison holds exactly when `against` is empty or shares a value with that group of `check` |
| Etags.CompareArrays | packages/build-tools/src/dax.ts:261-281 | two arrays agree exactly when `against` is empty or some etag is in both |
| Etags.CompareRecordWithArray | packages/build-tools/src/dax.ts:261-281 | prefixed labels agree with an array exactly when the array is empty or some prefixed `_<i>`-group label holds one of its etags |
| Sizes.Trim | packages/build-tools/src/dax.ts:306 | `trim()` gives the text between leading and trailing white space, with none left at either end |
| Sizes.TrimClean | packages/build-tools/src/dax.ts:306 | text without white space at either end is its own trim |
| Sizes.ParseSize | packages/build-tools/src/dax.ts:307 | a match of the size pattern is a well-formed size that renders back to the text |
| Sizes.ParseRenderSize | packages/build-tools/src/dax.ts:307 | every well-formed size text parses back into its own parts (the parser accepts exactly the pattern's language) |
| Sizes.CeilDiv | packages/build-tools/src/dax.ts:316-317 | `Math.ceil` of an exact quotient is the least integer at or above it |
| Sizes.SizeToBytes | packages/build-tools/src/dax.ts:305-318 | the "Invalid size format" error happens exactly when the trimmed text does not match the pattern |
| Sizes.RenderTrimmed | packages/build-tools/src/dax.ts:306 | a well-formed size text is its own trim |
| Sizes.SizeOfText | packages/build-tools/src/dax.ts:283-318 | a well-formed text's size is its exact number times the upper-cased unit's multiplier, rounded up; an unknown unit is an error |
| Sizes.UnitCaseInsensitive | packages/build-tools/src/dax.ts:312-314 | texts that differ only in the case of their unit have the same size |
| Sizes.SizeOfWhole | packages/build-tools/src/dax.ts:283-318 | a whole number with a known unit is exactly that many units |
| Sizes.DefaultDiskSize | development/scripts/rpiNbdDiskServer.ts:45 | `sizeToBytes("8G")` is 8000000000 |
| Names.SplitHostPort | packages/build-tools/src/dax.ts:8 | the host and port groups recompose the text after the user part |
| Names.ParseTarget | packages/build-tools/src/dax.ts:8 | a match yields a well-formed target that renders back to the input |
| Names.TargetHost | development/scripts/rpiNbdDiskServer.ts:153 | the host group of a valid target is a valid host holding no `@` |
| Names.TargetHostOf | development/scripts/rpiNbdDiskServer.ts:153 | the host group of a rendered target is the target's own host |
| Names.ParseRenderTarget | packages/build-tools/src/dax.ts:8 | every well-formed target renders to text that parses back to it (round trip) |
| Names.SshTargetLanguage | packages/build-tools/src/dax.ts:8 | the recogniser accepts exactly the renderings of well-formed targets |
| Names.PortRange | packages/build-tools/src/dax.ts:8 | the port alternatives admit exactly 1-4 digit strings and 5-digit strings without a leading zero up to 65535 |
| Names.ParseImage | packages/build-tools/src/dax.ts:9 | a match yields a well-formed image name that renders back to the input |
| Names.ParseRenderImage | packages/build-tools/src/dax.ts:9 | every well-formed image name renders to text that parses back to it (round trip) |
| Names.ImageNameLanguage | packages/build-tools/src/dax.ts:9 | the recogniser accepts exactly renderings of well-formed names; every accepted name has a `namespace/` prefix |
| Crypto.SerialChar | packages/shared/src/crypto.ts:16-23 | a byte maps to a character of the 32-character alphabet |
| Crypto.Payload | packages/shared/src/crypto.ts:23 | 15 alphabet characters, the i-th from the i-th digest byte |
| Crypto.Checksum | packages/shared/src/crypto.ts:24 | the check character is an alphabet character |
| Crypto.DerToPem | packages/shared/src/crypto.ts:11-14 | fails (null match) exactly when the base64 body is empty |
| Crypto.DerToPemLayout | packages/shared/src/crypto.ts:11-14 | the text is the BEGIN line, the body in 64-character lines with a shorter non-empty last one, the END line and a final newline (section 2 of RFC 7468) |
| Crypto.SerialNumberFromPublicKey | packages/shared/src/crypto.ts:18-26 | non-public keys are rejected; otherwise 16 alphabet characters whose last is the check character of the first 15 |
| Crypto.SerialNumberReformat | packages/shared/src/crypto.ts:27-29 | fails exactly on the empty serial (null match); otherwise groups of up to four joined by `-` |
| Crypto.SerialNumberValidate | packages/shared/src/crypto.ts:30-38 | accepts only text with exactly 16 characters once dashes are removed |
| Crypto.AlphabetChars | packages/shared/src/crypto.ts:16-17 | the alphabet has 32 distinct characters, exactly the serial characters |
| Crypto.ReformatSixteen | packages/shared/src/crypto.ts:28 | a 16-character serial becomes four dash-separated groups of four |
| Crypto.ReformatOnlyInsertsDashes | packages/shared/src/crypto.ts:28-31 | deleting the dashes from a reformatted serial gives the serial back |
| Crypto.ChecksumUnique | packages/shared/src/crypto.ts:34-37 | exactly one alphabet character completes a 15-character payload into an accepted serial |
| Crypto.ValidateAcceptsGenerated | packages/shared/src/crypto.ts:23-37 | round trip: every generated serial validates, as generated and after reformatting |
| Crypto.ValidateIgnoresDash | packages/shared/src/crypto.ts:31 | a dash anywhere does not change the verdict |
| Crypto.ValidateIgnoresCase | packages/shared/src/crypto.ts:31 | letter case does not change the verdict |
| CertUtils.GenerateSerialNumberFromPublicKey | packages/backend/scripts/certUtils.ts:6-14 | four dash-separated groups of four alphabet characters, the last the check character of the first 15 |
| CertUtils.ValidateSerialNumber | packages/backend/scripts/certUtils.ts:15-23 | the same verdict as the shared validator |
| CertUtils.GeneratedValidates | packages/backend/scripts/certUtils.ts:11-22 | round trip: the validator accepts every generated serial |
| Globs.UnescapeEscape | packages/build-tools/src/rollup.ts:61 | escaping loses nothing: unescaping gives the text back |
| Globs.Sanitize | packages/build-tools/src/rollup.ts:56-62 | "" as is; an error exactly when the text holds `*`; otherwise star-free text that unescapes to the input |
| Globs.AndThenAssoc | packages/build-tools/src/rollup.ts:63-98 | joining translations is associative, so the loop's left-to-right accumulation equals the recursive translation's nesting |
| Globs.TemplateLiteralToGlob | packages/build-tools/src/rollup.ts:63-71 | the loop gives the template's recursive translation: sanitized quasis interleaved with the expressions' globs, stopping at the first error |
| Globs.StarIffDynamic | packages/build-tools/src/rollup.ts:72-98 | a successful glob holds a wildcard exactly when some part of the expression is not known text (calls other than `concat`, `super.concat`, non-literals) |
| Globs.TemplateStar | packages/build-tools/src/rollup.ts:63-71 | only the expressions read by the loop can put a wildcard into a template's glob |
| Globs.CollapseStars | packages/build-tools/src/rollup.ts:118 | one pass: no longer, wildcards kept exactly when present, text without `**` unchanged |
| Globs.OnePass | packages/build-tools/src/rollup.ts:118 | a single pass leaves `***` as `**` |
| Globs.Accepted | packages/build-tools/src/rollup.ts:114-120 | fails exactly when the translation fails; an accepted glob has a wildcard and is not `*`, absolute or relative |
| Globs.StaticSkipped | packages/build-tools/src/rollup.ts:118-120 | a `require` of known text is never rewritten |
| Globs.HelperNamesDistinct | packages/build-tools/src/rollup.ts:138 | distinct counter values give distinct helper names |
| Globs.Transform | packages/build-tools/src/rollup.ts:101-153 | the walk gives the helpers the site-by-site definition gives, counting every `require` with an expression argument, skipped or not |
| Globs.HelpersStayFailed | packages/build-tools/src/rollup.ts:131-135 | once a site fails (bad glob, or no dependencies when that is an error) the walk stays failed with that error |
| Globs.HelperNumbers | packages/build-tools/src/rollup.ts:107-138 | each helper is numbered by how many counted calls precede its site |
| Globs.HelperOrder | packages/build-tools/src/rollup.ts:107-138 | later helpers come from later sites and carry larger numbers, so no two share a name |
| Globs.HelperSites | packages/build-tools/src/rollup.ts:101-153 | helpers appear in the order of their call sites |
| Device.Respond | packages/device/src/index.ts:102-140 | the services PTR and https PTR answers, SRV plus one A/AAAA for the family, CERT with the certificate bytes; A and AAAA records carry the family's address; any other type gets nothing |
| Device.AnswerTable | packages/device/src/index.ts:102-140 | a question is answered exactly when it is one of the table's questions (A/AAAA only for the matching family) |
| Device.AnswersNamed | packages/device/src/index.ts:103-138 | every answer is named after the question, except the address record riding with the SRV record |
| Device.SrvTargetUnanswered | packages/device/src/index.ts:115-124 | the SRV target `<serial>-clamat-device.local` is never answered, while `<serial>.clamat-device.local` is |
| Device.Response | packages/device/src/index.ts:208-214 | nothing is sent exactly when the HTTPS server has no address; at most two answers per question |
| Device.ResponseAppend | packages/device/src/index.ts:212 | the answers to two batches of questions are the concatenation of their answers, in question order |
| Device.ResponseAnswers | packages/device/src/index.ts:212 | every answer sent answers one of the questions asked |
| Device.LastSlash | packages/device/src/index.ts:56-57 | the position of the last `/`, absent exactly when there is none |
| Device.MigrationFileAsWritten | packages/device/src/index.ts:55-63 | only `/meta/_journal.json` and `/<name>.sql` are served; any other path throws |
| Device.MigrationFileOf | packages/device/src/index.ts:55-63 | the same paths are served, and a `.sql` request names the file its base name names |
| Device.MigrationRoundTrip | packages/device/src/index.ts:61-69 | asking for `/<tag>.sql` serves `<tag>.sql` |
| Device.MigrationAsWrittenTruncates | packages/device/src/index.ts:61 | as written the round trip holds exactly for four-character tags; `0000_init` is served from `0000.sql` |
| Device.OpensNamed | packages/device/src/index.ts:55-63 | a read of `/<tag>.sql` opens the first four characters of `<tag>.sql` as written, and `<tag>.sql` as intended |
| Device.Bundled | packages/device/src/index.ts:59-62 | a tag's read succeeds exactly when the file it opens under the chosen reading is bundled, and yields that file's content |
| Device.TaggedBundleAsWritten | packages/device/src/index.ts:61-69 | with files bundled by tag, the read of `0000_init` throws as written and yields the tag's file as intended |
| Device.InstalledHolds | packages/device/src/index.ts:68-95 | after installing, each written tag holds the bundled file its read opens, others are untouched, and no other file appears |
| Device.InstallStep | packages/device/src/index.ts:68-71 | one more write extends the bundled range and sets that tag to the file its read opens |
| Device.AsWrittenShares | packages/device/src/index.ts:61-95 | as written, two tags whose `<tag>.sql` share the first four characters are installed with the same file |
| Device.MigrationsFolder.constructor | packages/device/src/index.ts:65-66 | the folder with the given journal and files |
| Device.MigrationsFolder.Install | packages/device/src/index.ts:68-95 | succeeds exactly when the file every entry from `lo` on opens is bundled, and then writes exactly those files; the journal is untouched |
| Device.MigrationsFolder.Check | packages/device/src/index.ts:76-91 | succeeds exactly when version, dialect, entry count, each entry and each local file agree with the bundled file its read opens; version checked first, then dialect |
| Device.MigrationsFolder.CheckEntry | packages/device/src/index.ts:85-90 | one entry passes exactly when it equals the bundled entry, its local file exists, the bundled file its read opens exists and the two files agree |
| Device.MigrationsFolder.Sync | packages/device/src/index.ts:64-98 | under the chosen reading (the code's is `AsWritten`): without a journal writes every bundled file; with one, only a compatible folder is updated with the entries it lacks; the journal is written last, so a failure leaves it as it was |
| Device.SyncedMatches | packages/device/src/index.ts:84-95 | after a compatible sync every bundled entry's file holds the bundled file its read opens (its own file exactly under `Intended`) and no file beyond the old ones and the journal's appears |
| Stages.TruncationsNone | development/scripts/rpiNbdDiskServer.ts:45-76 | a step list has no `truncate` exactly when its truncation list is empty |
| Stages.Begin | development/scripts/rpiNbdDiskServer.ts:9 | a fresh, bound, empty cleanup stack |
| Stages.Register | development/scripts/rpiNbdDiskServer.ts:30 | `addCleanup` of a teardown appends its tag to the registered teardowns and runs nothing |
| Stages.InvokeNewest | development/scripts/rpiNbdDiskServer.ts:62 | calling the newest teardown runs it now and takes it off the stack; its throw reaches the caller |
| Stages.RemoveNewest | development/scripts/rpiNbdDiskServer.ts:63 | `remove()` of the newest teardown takes it off without running it |
| Stages.Abort | packages/build-tools/src/dax.ts:67-95 | a top-level throw runs every registered teardown newest first and exits 1 |
| Stages.Settle | development/scripts/rpiNbdDiskServer.ts:224-230 | the race settles: every teardown runs newest first; exit 0 if the first command to settle succeeded, else 1 |
| Stages.Stage | development/scripts/rpiNbdDiskServer.ts:94-105 | the kill teardown is registered exactly when the process is correlated, before the readiness wait; the stage is up exactly when correlated and ready |
| Stages.ConfigHost | development/scripts/rpiNbdDiskServer.ts:149-164 | the frpc configuration connects to the target's host with the frps port and token and forwards to the chosen remote port |
| Stages.Tunnel | development/scripts/rpiNbdDiskServer.ts:107-191 | frps, then the configuration written only once frps is ready, then frpc; each kill registered only after correlation |
| Stages.ServedTags | development/scripts/rpiNbdDiskServer.ts:101-217 | a script that gets to "Ready" holds the server kill, frps kill, frpc kill and detach, and drains them in the reverse order |
| Stages.Expose | development/scripts/rpiNbdDiskServer.ts:107-230 | every path ends with all teardowns run newest first; exit 0 exactly when the tunnel and attach came up and the first settled command succeeded |
| Stages.BringUp | development/scripts/rpiNbdDiskServer.ts:94-230 | the same, from the local server on: exit 0 exactly when every stage came up and the first settled command succeeded |
| Stages.DeviceLine | development/scripts/rpiNbdDiskServer.ts:219 | a matched device is non-empty text within one line |
| Stages.DeviceLineEcho | development/scripts/rpiNbdDiskServer.ts:219 | the line the remote script echoes is found |
| Stages.DeviceLineSkips | development/scripts/rpiNbdDiskServer.ts:219 | a line without the marker is skipped |
| DiskServer.DefaultSize | development/scripts/rpiNbdDiskServer.ts:45 | a new disk without `--size` has 8000000000 bytes |
| DiskServer.MountDevice | development/scripts/rpiNbdDiskServer.ts:193-221 | the unmount teardown, tagged by `Stages.DetachTag`, disconnects the echoed device and does not throw |
| DiskServer.CreateDisk | development/scripts/rpiNbdDiskServer.ts:43-63 | one `truncate` to the requested size; on success the delete teardown is removed and the detach run early, so neither is left; each failure says which teardowns remain |
| DiskServer.GrowDisk | development/scripts/rpiNbdDiskServer.ts:64-91 | the disk is truncated only to grow it, and only when it is smaller and the operator agrees; never shrunk |
| DiskServer.CheckArguments | development/scripts/rpiNbdDiskServer.ts:9-25 | a bad size or a target the pattern rejects exits 1 before anything is registered |
| DiskServer.Acquire | development/scripts/rpiNbdDiskServer.ts:26-41 | a locked disk exits after removing only the temp directory; the unlock teardown is registered only once the lock is taken |
| DiskServer.PrepareNew | development/scripts/rpiNbdDiskServer.ts:43-63 | the new-disk step, and on failure the abort that runs the remaining teardowns |
| DiskServer.PrepareGrow | development/scripts/rpiNbdDiskServer.ts:64-91 | the grow step, and on failure the abort |
| DiskServer.PrepareDisk | development/scripts/rpiNbdDiskServer.ts:43-92 | create a missing disk (`--size`, else 8G) or grow an existing one; the truncations made; a failure aborts |
| DiskServer.HeldLast | development/scripts/rpiNbdDiskServer.ts:30-38 | the lock is released and then the temp directory removed, after everything registered later |
| DiskServer.Hold | development/scripts/rpiNbdDiskServer.ts:43-230 | from the disk step on: exit 0 exactly when the disk is ready, every stage came up and the first settled command succeeded; the truncations made; on each failure path the teardowns run are the early detach or delete followed by every registered teardown newest first |
| DiskServer.Finish | development/scripts/rpiNbdDiskServer.ts:43-230 | the same from the lock on, as teardown runs: a failed `truncate` runs only the unlock and temp removal; later failures first delete the new disk (and detach it); a ready disk tears down the service newest first, then unlock, then temp removal |
| DiskServer.Serve | development/scripts/rpiNbdDiskServer.ts:1-231 | exit 0 exactly when every stage came up and the first settled command succeeded; the teardowns run, newest first, for each path |
| RamServer.PlaceAsWritten | development/rpiNbdRamServer.ts:34-41 | as written an empty host throws for every scheme but `file:` |
| RamServer.PlaceOf | development/rpiNbdRamServer.ts:34-41 | a place exists exactly for the hosts "", "." and "~"; any other host is rejected |
| RamServer.PlaceKeepsPath | development/rpiNbdRamServer.ts:34-41 | the place keeps the URL's path; the host picks root, working directory or home |
| RamServer.PlaceAgrees | development/rpiNbdRamServer.ts:34-41 | the two mappings differ exactly on an empty host under a scheme other than `file:` |
| RamServer.RamfsExample | development/rpiNbdRamServer.ts:35-36 | `ramfs:///mnt/rpi-nbd-ram-0` is rejected as written and mapped to `/mnt/rpi-nbd-ram-0` as intended |
| RamServer.RamfsRefused | development/rpiNbdRamServer.ts:34-41 | with `--ram ramfs:///mnt/rpi-nbd-ram-0` the script never gets a place, so it cannot serve and, by `Serve`, exits 1 after removing only the temp directory; the intended mapping would place it |
| RamServer.SwapDevice | development/rpiNbdRamServer.ts:172-188 | the swap teardown, tagged by `Stages.DetachTag`, turns off the echoed device and does not throw |
| RamServer.Acquire | development/rpiNbdRamServer.ts:12-32 | size, target and tools are checked before the temp directory's removal is the only registered teardown |
| RamServer.Back | development/rpiNbdRamServer.ts:49-60 | only `ramfs:` mounts and registers the unmount; `file:` does nothing; any other protocol throws |
| RamServer.Locate | development/rpiNbdRamServer.ts:34-60 | the place comes from the mapping as written, so an empty-host URL of any scheme but `file:` aborts like an unknown host; an existing path aborts; the directory's removal is registered only after it is created, before the protocol is checked |
| RamServer.MakeSwap | development/rpiNbdRamServer.ts:61-62 | one `truncate` to `--size` bytes, then `mkswap` |
| RamServer.Lend | development/rpiNbdRamServer.ts:61-197 | the swap file, then the service, ending with all teardowns run newest first |
| RamServer.Finish | development/rpiNbdRamServer.ts:34-197 | exit 0 exactly when the place is found and backed, the swap file made, every stage came up and the first settled command succeeded; an unplaced run only removes the temp directory; otherwise the service, then the place's teardowns, then the temp directory are torn down; the steps are the backing, one `truncate` to `--size`, `mkswap` and the service |
| RamServer.TempLast | development/rpiNbdRamServer.ts:27-55 | the temp directory is removed last, after the place's unmount and directory removal |
| RamServer.Serve | development/rpiNbdRamServer.ts:1-198 | with the place from the mapping as written, exit 0 exactly when every stage came up and the first settled command succeeded; the teardowns run, newest first, for each path |
| NinePServer.Acquire | development/scripts/rpi9pServer.ts:21-33 | a bad target or missing tool exits before anything is registered; a missing export exits after the temp directory's removal is registered |
| NinePServer.Finish | development/scripts/rpi9pServer.ts:35-151 | diod, the tunnel, the mount and the race; exit 0 exactly when all came up and the first settled command succeeded |
| NinePServer.Serve | development/scripts/rpi9pServer.ts:1-152 | exit 0 exactly when every stage came up and the first settled command succeeded; the teardowns run, newest first, for each path |
| Partitions.PartitionFrom | packages/toolchain-raspios/scripts/createBaseDockerImage.ts:98-99 | the leftmost partition match at or after a position, or none there |
| Partitions.Partition | packages/toolchain-raspios/scripts/createBaseDockerImage.ts:98-99 | none exactly when the mapping has no `loop<digits>p<n>`; otherwise the leftmost match |
| Partitions.PartitionShape | packages/toolchain-raspios/scripts/createBaseDockerImage.ts:98-99 | a partition name is `loop`, digits and `p<n>` |
| Partitions.LoopDeviceShape | packages/toolchain-raspios/scripts/createBaseDockerImage.ts:114 | the loop device is `/dev/loop<digits>`, the root name without `p2` |
| Partitions.FirstRootWins | packages/toolchain-raspios/scripts/createBaseDockerImage.ts:98 | the first match wins: `loop7p2 loop8p2` has root `loop7p2` |
| BaseImage.StripQuotesRoundTrip | packages/toolchain-raspios/scripts/createBaseDockerImage.ts:48-49 | a quoted ETag header is stored without its first and last character |
| BaseImage.FileUrlMapping | packages/toolchain-raspios/scripts/createBaseDockerImage.ts:61-69 | for a `file:` URL the mapping as written, which this script uses, agrees with the corrected one, so it never throws there |
| BaseImage.Fetching | packages/toolchain-raspios/scripts/createBaseDockerImage.ts:41-84 | each throw before the first etag happens exactly on its own condition (bad URL, failed HEAD, a `file:` host other than "", "." or "~", a missing file, another protocol); otherwise every command is followed by an etag push, the last step is a push, and the last etag is the hash of the decompressed image (of the file itself when it is not xz) |
| BaseImage.Gather | packages/toolchain-raspios/scripts/createBaseDockerImage.ts:33-84 | a stop names a failing command; an early exit happens with a matching list that is a longer prefix of all the etags the steps push; otherwise exactly all of them are collected in order |
| BaseImage.AlreadyCreatedMeans | packages/toolchain-raspios/scripts/createBaseDockerImage.ts:33-40 | the early exit fires exactly when the image has labels and some `ETAG_IMAGE` label holds a collected etag |
| BaseImage.AlreadyCreatedGrows | packages/toolchain-raspios/scripts/createBaseDockerImage.ts:33-40 | collecting more etags can only make the check succeed |
| BaseImage.GatherDecides | packages/toolchain-raspios/scripts/createBaseDockerImage.ts:42-82 | etags are appended in order and checked after each; the run stops early exactly when the full list would match |
| BaseImage.ImportLabels | packages/toolchain-raspios/scripts/createBaseDockerImage.ts:145 | the import carries one `ETAG_IMAGE_<i>` label per etag |
| BaseImage.ImportedIsFound | packages/toolchain-raspios/scripts/createBaseDockerImage.ts:33-145 | round trip: an image imported with its etags is found already created at its first etag |
| BaseImage.Prepare | packages/toolchain-raspios/scripts/createBaseDockerImage.ts:20-29 | a bad name or missing tool exits 1 before anything is registered; then only the temp removal is registered |
| BaseImage.Fetch | packages/toolchain-raspios/scripts/createBaseDockerImage.ts:31-88 | the etags collected, exit 0 as soon as the image is found, an abort on a bad URL or failed step |
| BaseImage.RegisterMapping | packages/toolchain-raspios/scripts/createBaseDockerImage.ts:93-118 | the mapping's teardowns are registered in order, the loop device only when both partitions exist |
| BaseImage.MapPartitions | packages/toolchain-raspios/scripts/createBaseDockerImage.ts:90-120 | a missing root partition aborts after the mapping teardowns are registered |
| BaseImage.MountAndImport | packages/toolchain-raspios/scripts/createBaseDockerImage.ts:121-147 | each unmount registered right after its mount; the import happens only on the right architecture |
| BaseImage.Build | packages/toolchain-raspios/scripts/createBaseDockerImage.ts:31-147 | fetch, map, mount and import, every path ending with the teardowns run newest first |
| BaseImage.Create | packages/toolchain-raspios/scripts/createBaseDockerImage.ts:1-148 | exit 0 exactly when the image was imported or already existed; the teardowns run are the reverse of those registered; the labels are imported exactly when built |
| BaseImage.RegisteredWhenBuilt | packages/toolchain-raspios/scripts/createBaseDockerImage.ts:26-139 | after an import every teardown was registered |
| BaseImage.TeardownOrder | packages/toolchain-raspios/scripts/createBaseDockerImage.ts:26-139 | teardown runs: unmount boot, unmount root, losetup, dmsetup boot, dmsetup root, kpartx -d, temp dir |
| BaseImage.BuiltOrder | packages/toolchain-raspios/scripts/createBaseDockerImage.ts:26-147 | a successful import with both partitions tears down in that order |
| BaseImage.RootMissing | packages/toolchain-raspios/scripts/createBaseDockerImage.ts:119-120 | a missing root partition still deletes the mapping |
| ImportImage.ValidNameMeans | packages/toolchain-raspios/scripts/createDockerImage.ts:22-23 | a valid name is a lower-case letter then 11 to 64 name characters; a leading `_` is rejected although the message shows `[a-z_]` |
| ImportImage.EmptyUrlTakesUrlBranch | packages/toolchain-raspios/scripts/createDockerImage.ts:20-45 | an empty `--url` with a `--file` passes the exactly-one check yet downloads from the empty URL |
| ImportImage.TryBlock | packages/toolchain-raspios/scripts/createDockerImage.ts:55-75 | root then boot mounted, each flag set after its mount; a throw leaves the flags as they were |
| ImportImage.FinallyBlock | packages/toolchain-raspios/scripts/createDockerImage.ts:76-98 | each teardown runs when its flag or partition says so, failures swallowed |
| ImportImage.Create | packages/toolchain-raspios/scripts/createDockerImage.ts:1-102 | success exactly when imported as `local/raspios:<name>`; the `finally` steps run on every path past the mapping; the temp dir is left exactly when the main block threw |
| ImportImage.FinallyUnmountsMounted | packages/toolchain-raspios/scripts/createDockerImage.ts:76-98 | a partition is unmounted exactly when it was mounted; the mapping is deleted on every path |
| ImportImage.ImportedOrder | packages/toolchain-raspios/scripts/createDockerImage.ts:76-98 | after an import: boot unmount, root unmount, kpartx -d, root mapping, boot mapping, losetup |
| ImportImage.FailureStillUnmaps | packages/toolchain-raspios/scripts/createDockerImage.ts:53-99 | a failure inside `try` still deletes the mapping; a failure before it runs no teardown |
| Rebuild.CreatedLabels | packages/toolchain-raspios/scripts/createDevelDockerImage.ts:30-34 | every label read other than `NOT-AVAILABLE` is the image's own, and `NOT-AVAILABLE` is present exactly when the inspection fails or the image carries it |
| Rebuild.ClearExtends | packages/toolchain-raspios/scripts/createDevelDockerImage.ts:32-46 | the flag's history stays non-increasing |
| DevelImage.Decide | packages/toolchain-raspios/scripts/createDevelDockerImage.ts:32-46 | each check goes through `Rebuild.Clear`; the flag only goes from true to false, and ends true exactly when all three checks pass |
| DevelImage.Create | packages/toolchain-raspios/scripts/createDevelDockerImage.ts:1-64 | a build happens exactly when the inspected base leaves the image incompatible; exit 0 unless a check throws or the build fails |
| DevelImage.Finish | packages/toolchain-raspios/scripts/createDevelDockerImage.ts:29-63 | built exactly when the base was inspected and the image is incompatible with it; exit 1 when the base inspection throws or the build fails, else 0; every registered teardown runs newest first |
| DevelImage.CompatibleMeans | packages/toolchain-raspios/scripts/createDevelDockerImage.ts:30-46 | a skipped build means labels with the template's etag, no `NOT-AVAILABLE` and agreeing base etags |
| DevelImage.NullBaseSkipsComparison | packages/toolchain-raspios/scripts/createDevelDockerImage.ts:37-39 | a base image without labels is not compared |
| DevelImage.BaseAgreesMeans | packages/toolchain-raspios/scripts/createDevelDockerImage.ts:38-39 | with plain `ETAG`/`ETAG_<i>` base labels, agreement means none or one shared value |
| DeviceBuild.Decide | packages/device/scripts/build.ts:34-55 | each check goes through `Rebuild.Clear`; the flag only goes from true to false, and ends true exactly when all four checks pass |
| DeviceBuild.Build | packages/device/scripts/build.ts:1-78 | only the one platform and a valid toolchain name are accepted; a rebuild exactly when incompatible; the container runs either way unless the build fails |
| DeviceBuild.Finish | packages/device/scripts/build.ts:34-77 | built exactly when a rebuild is called for; the container runs unless that build fails; exit 0 exactly when it ran and exited cleanly; no teardown runs |
| DeviceBuild.CompatibleMeans | packages/device/scripts/build.ts:32-55 | a skipped build means the template and manifest etags are present and equal, and there is no `NOT-AVAILABLE` label |

## Left out

- Processes, SSH, the embedded shell scripts, nbdkit, frp, diod, docker, kpartx, mount and the operator prompt are not run. Their outcomes, captured output and answers are inputs.
- Timers, `$.sleep` and the 100 ms deadlines are poll indices and a window of spawns before the deadline.
- Stream plumbing (`stream()`, tee, text decoders) is not modelled. Captured output is a given string per poll.
- The `spawn` monkey-patch and WeakRef/FinalizationRegistry are left out. Only the log they produce is modelled.
- Tracker.SpawnLog.Collect: garbage collection is any deletion of the collected process's records, not a specific order of finalisation.
- Concurrency: the scripts are sequential. The `.finally` rethrow of a settled command after "Ready" is a later unhandled rejection that parks, so it is not traced further.
- A server process (diod, nbdkit, frps, frpc) that exits before "Ready" is not modelled. Its `.finally` rethrow starts `runCleanupAndExit(1)` at once, beside a main flow that still registers teardowns; the model assumes every long-running command settles only at the final race.
- Crypto.SerialNumberValidate: upper-cases ASCII letters only and measures length in code points. JavaScript's `toUpperCase` folds all of Unicode (`ß` becomes `SS`) and `length` counts UTF-16 units, so a serial with non-ASCII letters can validate in the source and not in the model.
- CertUtils.ValidateSerialNumber: shares the ASCII-only case folding and code-point length of `Crypto.SerialNumberValidate`.
- Sizes.SizeToBytes: computes the exact size rounded up. JavaScript's double arithmetic for fractions and very large multipliers (1e18, 1024**6) is floating point and is not modelled.
- SHA-256, base64, SPKI/DER export, webcrypto and node-forge are function parameters.
- `encryptionKeyFromPrivateKey` is left out: it is foreign signing behind a type guard.
- The certificate scripts are left out: they are thin library wrappers.
- Globs.Escape: escapes a fixed set of glob-special characters with a backslash. The exact character set of `fastGlob.escapePath` is not modelled.
- `picomatch`, `this.resolve`, `MagicString` rewriting and the generated helper's source text are abstract. A site carries its matched dependencies.
- The mDNS sockets, the HTTPS server, `updateHttpsService` and the rebinding intervals are left out, as is the backend server.
- `drizzleMigrate` is not modelled, and neither are JSON parse failures of the journals.
- `path.join` and `path.dirname` are not modelled fully: the model splits at the last `/` and does not normalise repeated or trailing slashes.
- Random ports and tokens (`Math.random`) are parameters.
- A failing teardown command inside a teardown is not modelled. Teardowns are recorded as run; the disk and RAM detach teardowns throw only when the device line is missing.
- Mandatory-option errors of the command-line parser are not modelled, and neither are `mkdir`/`mkdtemp` failures.
- Hash commands (`sha256sum`) are treated as total. The `docker` template rendering (ejs) is not modelled.
- Cleanup.CleanupStack.CommandController: the model assumes dax's `build$` calls the `commandBuilder` callback once for every command it builds, when it is built, and that the chosen `KillController` signal reaches that command. dax's own internals are not part of this model.
- Cleanup.CleanupStack.OnProcessEvent: without `bindCleanup`'s handlers, Node's own default for SIGINT, SIGTERM or an uncaught exception ends the process at once with no drain; the model only leaves the stack untouched there. Every script calls `bindCleanup` before it registers anything.
- BaseImage.Fetch: the base image script's straight-line "push an etag, then check" steps are modelled as a list of actions walked by `BaseImage.Gather`.
- JavaScript `String()` of non-string literals is not modelled in the glob translation. Literals are text.
- Files with no logic to model (configuration, database setup, lock file wrapper, clean/setup scripts, `findPackageJson`, `nativeAddonLoader`) are not part of this model.

## Findings

| source | as written | input that shows it | evidently intended | confidence | as-written member | corrected member |
|---|---|---|---|---|---|---|
| development/rpiNbdRamServer.ts:35-36 | an empty URL host goes through `fileURLToPath`, which accepts only `file:` URLs | `--ram ramfs:///mnt/rpi-nbd-ram-0` throws, so the `ramfs:` branch of lines 49-55 can never be reached with an absolute path | an empty host names the URL's absolute path whatever the scheme | not executed | RamServer.PlaceAsWritten, RamServer.RamfsExample, RamServer.RamfsRefused | RamServer.PlaceOf, RamServer.PlaceAgrees |
| packages/device/src/index.ts:61 | `basename.slice(0, ".sql".length)` keeps the first four characters | `/0000_init.sql` reads `0000.sql` | `basename.slice(0, -".sql".length)`, the base name without its extension | not executed | Device.MigrationFileAsWritten, Device.MigrationAsWrittenTruncates, Device.TaggedBundleAsWritten, Device.AsWrittenShares | Device.MigrationFileOf, Device.MigrationRoundTrip |
