# Coordination engine: verified on-disk protocols

A Dafny 4.11 model of the parts of the coordination engine whose correctness rests on what is left on
disk: transactional re-vendoring, corpus rewriting, stamp and claim lifecycles, and the small lock-free
protocols between processes. The file system is a map from path to bytes or lines, git is a function of
the commit, and other processes are interleaved steps. Code that the source writes as loops over lists
and fields is a method or a class proved against a specification function; the laws are lemmas about
those functions and hold for all inputs, all runs and all interleavings.

`dafny verify dfyconfig.toml` checks the whole project.

| file | what it models |
|---|---|
| `Text.dfy` | whitespace, stripping, reading a file as lines that keep their terminators |
| `TextWrap.dfy` | wrapping a paragraph of chunks the way `textwrap.wrap` does |
| `PinRegistry.dfy` | the pin registry: lexing, loading, source coordinates, the rewrite as one downward pass |
| `PinRewrite.dfy` | the in-place edit loop, which pins it lands, and the way back to text |
| `SchemaRevendor.dfy` | the re-vendor transaction: plan, gates, writes, verification, rollback |
| `CorpusMigration.dfy` | one handoff file: finding the frontmatter, parsing it, rewriting its lines |
| `HandoffCorpus.dfy` | the whole corpus: successors, duplicates, any history of runs |
| `SchemaVersion.dfy` | versions, direction of a change, shape without the version stamp |
| `CockpitRevendor.dfy` | the mirrored directory, its two gates, its pin, runs aborted mid-copy |
| `ShippedIn.dfy` | the `shipped_in` grammar, the derived candidate, the guards, sequences of stamps |
| `CommitFacts.dfy` | the commit-facts cache read back from one rendered log |
| `Claims.dfy` | claims and the identity written beside them |
| `HookStatus.dfy` | failure markers claimed by rename |
| `EngineLanding.dfy` | the landing marker as a timed protocol |
| `ArrivalRecord.dfy` | the arrival log and its substring lookup |
| `Doctor.dfy` | selection, verdict, exit code and advisory flag of the doctor |
| `HandoffArchival.dfy` | the archival guard and repeated archive moves |
| `ModuleReach.dfy` | the reachability worklist of the advisory census |

## What is proved about whole runs

- The values a registry rewrite moves all land if and only if the line ranges of the moved entries do not
  meet. If they do not, the registry loads, to the old pins with exactly the moved ones at the new commit,
  and the re-vendor transaction is all-or-nothing. If they do, a value is missed, and the reload after the
  writes can meet a registry that cannot be read, which ends the run without rollback: a registry of two
  entries shows it.
- A schema re-vendor, on any registry, has five endings, each with its exact condition. From a tidy registry
  no sequence of runs strands, and its pins are the old ones overlaid by the successful runs in order. A
  successful run repeated at once writes nothing.
- The one way a schema re-vendor can leave a half-written file is a failing manifest write in a run that
  has no schema and no pin to move: that branch writes outside the rollback. It is stated as an
  if-and-only-if.
- Migrating a corpus in any order, interrupted anywhere and restarted any number of times, leaves every
  file either untouched or fully migrated, and nothing else.
- Aborted cockpit runs keep both guarantees (no change of shape without `--ack-major`, no lower version
  without `--allow-downgrade`) exactly unless the abort tears a schema file, or the contract file for the
  second. A lemma exhibits the two runs that lower the version after a torn write.
- A new version stamp in a description goes unnoticed by the shape comparison exactly when the text in
  front of it does not end inside a begun stamp, such as "1.".
- The commit-facts cache agrees with git unless a field holds the record separator; a field separator only
  sends the question to git.
- The arrival lookup agrees with record membership exactly for ids that need no JSON escape.
- `--probe X --required-only` raises exactly when X is implemented and not required; the verdict is
  independent of row order exactly when some row has a known verdict or the unknown ones agree; an
  all-INFO run is INFO, contrary to the comment at `bin/claude-klabauter-doctor-probe.py:6129`.
- After a takeover the previous holder's name stays beside the new holder exactly when the identity write
  failed or its registry lookup raised.
- The version parser accepts signs, underscores and surrounding whitespace, although its docstring says
  non-negative integers; the model follows the code.

## Model

| member | source | states |
|---|---|---|
| `Text.ConcatReadLines` | bin/claude-klabauter-revendor-schema.py:395-406 | reading with terminators kept gives well-formed lines that concatenate to exactly the bytes read |
| `Text.ReadLinesConcat` | bin/dr084-migrate-handoff-vocabulary.py:254-272 | well-formed lines survive being written and read back |
| `PinRegistry.ShapeOfSplice` | bin/claude-klabauter-revendor-schema.py:454-458 | splicing a literal over one token's span changes that token and no other token of the line |
| `PinRegistry.PlaceOrder` | bin/claude-klabauter-revendor-schema.py:304-392 | source coordinates follow reading order, so no two tokens share them |
| `PinRegistry.NotesHaveNoTokens` | bin/claude-klabauter-revendor-schema.py:414-436 | an inserted note adds no token, whatever the reason text contains |
| `PinRewrite.NoteIsLines` | bin/claude-klabauter-revendor-schema.py:414-436 | however the text wraps, what is inserted is whole comment lines |
| `TextWrap.WrapKeepsText` | bin/claude-klabauter-revendor-schema.py:429-436 | however the paragraph is split and broken, at hyphens or inside long words, only whitespace is lost and no line is longer than the width |
| `SchemaRevendor.NoteKeepsReason` | bin/claude-klabauter-revendor-schema.py:428-436 | the lines of the note hold the reason, whitespace aside, each within the width its indentation leaves |
| `PinRegistry.TokensOfTopDown` | bin/claude-klabauter-revendor-schema.py:439-465 | the rewrite changes exactly the tokens its moves point at |
| `PinRegistry.EntriesStable` | bin/claude-klabauter-revendor-schema.py:304-392 | replacing values by literals leaves every entry of the dict where it was |
| `PinRegistry.PinsByLastKey` | bin/claude-klabauter-revendor-schema.py:304-392 | a loaded pin is the value of the last key that spells its name |
| `PinRegistry.RewrittenReloads` | bin/claude-klabauter-revendor-schema.py:439-465 | the rewritten registry loads to the old pins with the moved ones at the new SHA, for every registry and every set of moves whose entries keep apart; entries that do not move may share lines |
| `PinRewrite.NotesDropped` | bin/claude-klabauter-revendor-schema.py:439-465 | deleting the inserted lines gives back the original lines except for the replaced value spans; the deleted lines hold no token |
| `PinRewrite.SortDownBottomUp` | bin/claude-klabauter-revendor-schema.py:453-453 | sorting by descending key line puts every move wholly below the next and loses none |
| `PinRewrite.RewritePinRegistry` | bin/claude-klabauter-revendor-schema.py:453-465 | the in-place bottom-up loop for any moves: all passes in sorted order, or an exception when a note has no room; for moves that keep apart, one downward pass over the original lines |
| `PinRewrite.LineFate` | bin/claude-klabauter-revendor-schema.py:453-465 | the first pass whose key is at or above a line moves it down; that pass alone decides what the line reads in the end, unless a later one names a line further down |
| `PinRewrite.AllLandIff` | bin/claude-klabauter-revendor-schema.py:453-465 | all new values land on their tokens if and only if the moves, as applied, come bottom-up with room between them |
| `PinRewrite.PinsLandIff` | bin/claude-klabauter-revendor-schema.py:453-465 | the pins of distinct names all land if and only if the line ranges of their entries do not meet |
| `PinRewrite.SecondLandsIff` | bin/claude-klabauter-revendor-schema.py:453-465 | of two moves the second lands if and only if its value line is above the first one's key line |
| `PinRewrite.MeetingBehindHash` | bin/claude-klabauter-revendor-schema.py:453-465 | a missed value that starts right of the note's comment sign changes no token: the registry reads as if only the first entry had moved |
| `PinRewrite.MeetingUnreadable` | bin/claude-klabauter-revendor-schema.py:453-465 | a missed value that starts at or before that column overwrites the comment sign, and the dict cannot be read unless the rest of the comment starts with a separator |
| `PinRewrite.ShapeOfSpell` | bin/claude-klabauter-revendor-schema.py:304-392 | tokens written out on a line read back as those tokens |
| `PinRewrite.TightUnreadable` | bin/claude-klabauter-revendor-schema.py:439-465 | a family of registries, two entries sharing a line, that load before the rewrite of both pins and not after it |
| `PinRewrite.TightExample` | bin/claude-klabauter-revendor-schema.py:439-465 | one such registry, written out |
| `PinRewrite.OnlyBodyChanges` | bin/claude-klabauter-revendor-schema.py:439-465 | lines before and after the assignment are untouched |
| `PinRewrite.TopDownLf` | bin/claude-klabauter-revendor-schema.py:439-465 | the rewritten lines are lines again once written and read |
| `PinRewrite.RangesKept` | bin/claude-klabauter-revendor-schema.py:439-465 | entries that keep apart still keep apart after the rewrite, so it can be repeated |
| `PinRewrite.RewriteText` | bin/claude-klabauter-revendor-schema.py:439-465 | text to text, for any registry and moves: the text written is that of the registry as it is read again, or an exception when a note has no room; where the moved entries keep apart, that registry loads to the moved pins |
| `SchemaRevendor.UpdatesSettle` | bin/claude-klabauter-revendor-schema.py:505-530 | manifest updates are exactly the rows that differ, and applying them leaves none |
| `SchemaRevendor.ConsentGiven` | bin/claude-klabauter-revendor-schema.py:993-1022 | the gates pass exactly when every named schema has the consent its change needs: major advance, declined shape (also when only its pin moves) and pin move each answer to their own flag |
| `SchemaRevendor.AfterPins` | bin/claude-klabauter-revendor-schema.py:855-878 | after all writes the registry loads, with exactly the planned pins moved |
| `SchemaRevendor.AfterMeans` | bin/claude-klabauter-revendor-schema.py:794-828 | the written state has every named schema at its incoming bytes, recorded and, if tracked, pinned; all other schemas and pins unchanged |
| `SchemaRevendor.SecondRunSettled` | bin/claude-klabauter-revendor-schema.py:969-991 | after a re-vendored state the same request at the same commit finds nothing to do |
| `SchemaRevendor.AfterPrepared` | bin/claude-klabauter-revendor-schema.py:969-991 | the state a run leaves is settled and meets all that the next run asks of the registry; a tidy registry stays tidy |
| `SchemaRevendor.Workspace.Write` | bin/claude-klabauter-revendor-schema.py:525-541 | one write lands, or raises and leaves its own file torn or missing and no other changed |
| `SchemaRevendor.Workspace.Rollback` | bin/claude-klabauter-revendor-schema.py:1081-1091 | restores every snapshot and removes every created file |
| `SchemaRevendor.Workspace.WriteSchemas` | bin/claude-klabauter-revendor-schema.py:1093-1097 | schema bytes are written in plan order, all of them exactly when the fault strikes none of these writes; an interruption touches planned schemas only |
| `SchemaRevendor.Workspace.Apply` | bin/claude-klabauter-revendor-schema.py:1093-1115 | schemas, then registry, then manifest reach the planned state exactly when the fault strikes none of the writes and every note has room; otherwise only touched files differ |
| `SchemaRevendor.Workspace.Land` | bin/claude-klabauter-revendor-schema.py:1061-1129 | ends in the planned state, in every file as before, or in the written files without rollback, each exactly when specified: the last if and only if all writes land and the registry cannot be read |
| `SchemaRevendor.Workspace.Run` | bin/claude-klabauter-revendor-schema.py:881-1129 | on any workspace, each ending exactly when specified: refused by an unplannable request or an unmet gate, rolled back by a failed write, note, oracle or pin, stranded by an unreadable registry, crashed only in the unguarded no-op manifest write, otherwise the planned state |
| `SchemaRevendor.Workspace.RunTwice` | bin/claude-klabauter-revendor-schema.py:981-991 | a successful run whose moved entries keep apart, repeated at once, succeeds again without a write |
| `SchemaRevendor.PreparedLands` | bin/claude-klabauter-revendor-schema.py:855-878 | where the moved entries keep apart every moved pin reads back, so no run strands |
| `SchemaRevendor.TidyHistory` | bin/claude-klabauter-revendor-schema.py:881-1129 | from a tidy registry, any sequence of runs with any endings: none strands, the registry stays tidy, and its pins are the old ones overlaid by the successful runs in order |
| `SchemaRevendor.RepinsLandIff` | bin/claude-klabauter-revendor-schema.py:1098-1108 | the values a run moves all land if and only if the moved entries' line ranges do not meet |
| `SchemaRevendor.TightStrands` | bin/claude-klabauter-revendor-schema.py:1117-1121 | a request for both pins of a tight registry leaves a registry that cannot be read, without rollback |
| `CorpusMigration.InertMeans` | bin/dr084-migrate-handoff-vocabulary.py:289-341 | what any rule writes matches no rule again, tells the parser nothing and delimits nothing |
| `CorpusMigration.RewriteMatched` | bin/dr084-migrate-handoff-vocabulary.py:289-341 | a matched line becomes at least one line, each able to stand where it stood |
| `CorpusMigration.ActiveReadsOpen` | bin/dr084-migrate-handoff-vocabulary.py:294-299 | a status that read `active` reads `open` afterwards |
| `CorpusMigration.ConsumedReadsClaimed` | bin/dr084-migrate-handoff-vocabulary.py:300-304 | a status that read `consumed` reads `claimed` afterwards |
| `CorpusMigration.RenamedKeepsValue` | bin/dr084-migrate-handoff-vocabulary.py:306-318 | a renamed timestamp or claimant field keeps its value, spaces and all |
| `CorpusMigration.LastLineWins` | bin/dr084-migrate-handoff-vocabulary.py:154-189 | of every block: the parsed predecessor and id are those of its last line giving one, inside a list or out, and missing exactly when no line gives one |
| `CorpusMigration.PredecessorReads` | bin/dr084-migrate-handoff-vocabulary.py:157-161 | a plainly written predecessor line is read as written |
| `CorpusMigration.IdReads` | bin/dr084-migrate-handoff-vocabulary.py:162-166 | a plainly written id line is read as written |
| `CorpusMigration.ParseRewritten` | bin/dr084-migrate-handoff-vocabulary.py:146-199 | ids, predecessors and additional predecessors parse the same from the rewritten block |
| `CorpusMigration.OpenerLocal` | bin/dr084-migrate-handoff-vocabulary.py:104-131 | the opening delimiter is found from the lines up to it alone |
| `CorpusMigration.BoundsOfWithBlock` | bin/dr084-migrate-handoff-vocabulary.py:104-136 | a new block without delimiters keeps the opener and moves only the closer |
| `CorpusMigration.MigrateLinesOnce` | bin/dr084-migrate-handoff-vocabulary.py:275-349 | migrating keeps the file's record, and a second migration changes nothing whatever fate it is told |
| `CorpusMigration.MigratedIsLines` | bin/dr084-migrate-handoff-vocabulary.py:254-272 | the migrated lines are what reading the written file gives |
| `CorpusMigration.MigratedOnce` | bin/dr084-migrate-handoff-vocabulary.py:275-349 | the same on bytes: record kept, idempotent |
| `CorpusMigration.KeptInOrder` | bin/dr084-migrate-handoff-vocabulary.py:283-347 | every line of the block is answered in its place by what its rule writes, unmatched lines by themselves |
| `CorpusMigration.OutsideKept` | bin/dr084-migrate-handoff-vocabulary.py:346-349 | bytes before and after the frontmatter are kept |
| `CorpusMigration.ChangedIffWork` | bin/dr084-migrate-handoff-vocabulary.py:343-349 | a file changes exactly when some frontmatter line matches a rule |
| `CorpusMigration.FrontmatterBounds` | bin/dr084-migrate-handoff-vocabulary.py:104-136 | the nested search loops return the specified delimiters |
| `CorpusMigration.FindOpener` | bin/dr084-migrate-handoff-vocabulary.py:105-131 | blank lines and leading comments are skipped, a comment may close on the delimiter itself |
| `CorpusMigration.ParseRecord` | bin/dr084-migrate-handoff-vocabulary.py:146-199 | the parsing loop with its nested list loop equals the parser's state machine |
| `CorpusMigration.RewriteBlock` | bin/dr084-migrate-handoff-vocabulary.py:283-344 | the output list is the rewritten block; an action is reported exactly when a rule matched |
| `CorpusMigration.RewriteLine` | bin/dr084-migrate-handoff-vocabulary.py:289-341 | one turn of the loop, branch by branch, with the line's own terminator |
| `HandoffCorpus.SuccessorIff` | bin/dr084-migrate-handoff-vocabulary.py:235-251 | a successor exists exactly when another record refers back, and it is the earliest such record |
| `HandoffCorpus.AbandonedBecomes` | bin/dr084-migrate-handoff-vocabulary.py:320-338 | an abandoned line becomes `continued` naming that record exactly when one exists, else `closed` with reason stale |
| `HandoffCorpus.RecordsKept` | bin/dr084-migrate-handoff-vocabulary.py:361-371 | every half-migrated corpus scans to the original records, so successors and duplicate skips are the same |
| `HandoffCorpus.RunsCompose` | bin/dr084-migrate-handoff-vocabulary.py:352-397 | a run over some files followed by a fresh run over others equals one run over both |
| `HandoffCorpus.AnyHistory` | bin/dr084-migrate-handoff-vocabulary.py:352-397 | after any history of interrupted runs each file is untouched or fully migrated, depending only on whether some run reached it |
| `HandoffCorpus.DuplicateStays` | bin/dr084-migrate-handoff-vocabulary.py:216-232 | a live copy of an archived record is never touched, however many runs reach it |
| `HandoffCorpus.FindSuccessor` | bin/dr084-migrate-handoff-vocabulary.py:235-251 | the nested search loops return the specified successor |
| `HandoffCorpus.HandoffStore.Scan` | bin/dr084-migrate-handoff-vocabulary.py:361-369 | the first loop collects the records of all files in order and by path |
| `HandoffCorpus.HandoffStore.MigrateFile` | bin/dr084-migrate-handoff-vocabulary.py:275-349 | rewrites one file and reports a change exactly when its text differs; a dry run writes nothing |
| `HandoffCorpus.HandoffStore.Migrate` | bin/dr084-migrate-handoff-vocabulary.py:352-427 | for any visiting order the corpus ends fully migrated on the visited files; a dry run reports exactly the files a real run would change |
| `SchemaVersion.IntReads` | bin/claude-klabauter-revendor-cockpit-contract.py:434-437 | decimal text reads as its number, and a leading minus sign is accepted |
| `SchemaVersion.SemverRoundTrip` | bin/claude-klabauter-revendor-cockpit-contract.py:421-437 | a version written as three decimal numbers reads back as those numbers |
| `SchemaVersion.StampFirst` | bin/claude-klabauter-revendor-cockpit-contract.py:569-598 | a version stamp is blanked whatever its numbers are |
| `SchemaVersion.StampBlanked` | bin/claude-klabauter-revendor-cockpit-contract.py:569-598 | behind text that does not end inside a begun stamp, a stamp is blanked whatever its numbers are, and the text in front turns out the same |
| `SchemaVersion.PlainEnd` | bin/claude-klabauter-revendor-cockpit-contract.py:569-598 | text ending in neither a digit nor a dot never ends inside a begun stamp and is blanked on its own |
| `SchemaVersion.StampsAlikeIff` | bin/claude-klabauter-revendor-cockpit-contract.py:569-598 | replacing the stamp behind a text by any other goes unnoticed exactly when the text does not end inside a begun stamp, such as "1." or "1.2" |
| `SchemaVersion.VersionFieldIgnored` | bin/claude-klabauter-revendor-cockpit-contract.py:591-598 | moving only the version field leaves the shape equal, with or without a description |
| `SchemaVersion.VersionBumpSameShape` | bin/claude-klabauter-revendor-cockpit-contract.py:572-599 | moving only the version field and the stamp in the description leaves the shape equal |
| `CockpitRevendor.ShapeKept` | bin/claude-klabauter-revendor-cockpit-contract.py:602-707 | without `--ack-major` no run, finished or aborted, changes a schema's shape, unless the abort tears a schema file |
| `CockpitRevendor.ShapeKeptIff` | bin/claude-klabauter-revendor-cockpit-contract.py:782-807 | for an admitted run that holds of everything it may leave exactly when no schema file of the tree is torn |
| `CockpitRevendor.VersionKept` | bin/claude-klabauter-revendor-cockpit-contract.py:457-564 | without `--allow-downgrade` no run lowers or loses a version that reads as a triple, unless the abort tears the contract file |
| `CockpitRevendor.VersionKeptIff` | bin/claude-klabauter-revendor-cockpit-contract.py:782-807 | for an admitted run that holds of everything it may leave exactly when the contract file is not the one torn |
| `CockpitRevendor.ShapesOverHistory` | bin/claude-klabauter-revendor-cockpit-contract.py:963-1043 | the first over any sequence of runs, whatever the other flag |
| `CockpitRevendor.VersionOverHistory` | bin/claude-klabauter-revendor-cockpit-contract.py:963-1043 | the second over any sequence of runs, whatever the other flag |
| `CockpitRevendor.TornThenDowngrade` | bin/claude-klabauter-revendor-cockpit-contract.py:394-418 | a torn contract file reads as no version: two runs, neither with `--allow-downgrade`, end with the exact tree of any older version |
| `CockpitRevendor.ExactIsDone` | bin/claude-klabauter-revendor-cockpit-contract.py:734-775 | an exact copy with its pin is recognized as done by the next run at that commit |
| `CockpitRevendor.DetectDelta` | bin/claude-klabauter-revendor-cockpit-contract.py:626-683 | reports exactly the new, removed, malformed or reshaped schema files, and raises exactly when a file it has to read does not decode |
| `CockpitRevendor.PassGates` | bin/claude-klabauter-revendor-cockpit-contract.py:954-1037 | lets a run go on to its writes exactly when it is admitted; otherwise a readable dry run reports and everything else is refused |
| `CockpitRevendor.VendorDir.CopySchema` | bin/claude-klabauter-revendor-cockpit-contract.py:782-807 | succeeds exactly when none of its operations fails, with the exact tree; an abort leaves some stale files unlinked, or all of them and a beginning of the listing written with at most the next file torn |
| `CockpitRevendor.VendorDir.Prune` | bin/claude-klabauter-revendor-cockpit-contract.py:801-802 | removes only files the tree does not have; all of them exactly when no unlink fails |
| `CockpitRevendor.VendorDir.WriteFiles` | bin/claude-klabauter-revendor-cockpit-contract.py:803-807 | writes the files in the order listed; all of them exactly when no write fails, else a beginning of the list with at most the next one torn |
| `CockpitRevendor.VendorDir.Verify` | bin/claude-klabauter-revendor-cockpit-contract.py:814-854 | passes exactly when the directory equals the tree, no file missing, different or extra |
| `CockpitRevendor.VendorDir.Revendor` | bin/claude-klabauter-revendor-cockpit-contract.py:914-1066 | from any directory and pin, each ending exactly when specified: no-op when already vendored, refused when a gate or a read fails, aborted when an operation of an admitted run fails; otherwise the exact tree and pin, which the next run takes as done |
| `ShippedIn.TokenNotHex` | coordinator_core/shipped_in_tokens.py:41-42 | no value is both a commit id and the no-commit token |
| `ShippedIn.ResolveScopeSha` | coordinator_core/archive_stamp.py:438-469 | the walk returns the first commit of the window that is not mechanical, none if all are |
| `ShippedIn.DecideStepwise` | coordinator_core/archive_stamp.py:1010-1190 | the checks in the source's interleaved order make the specified decision |
| `ShippedIn.WritesCandidate` | coordinator_core/archive_stamp.py:1085-1182 | a deriving call writes exactly a candidate chosen without asking any guard, exactly when the guards of its source pass |
| `ShippedIn.GuardsOnlyRefuse` | coordinator_core/archive_stamp.py:700-748 | strengthening the guards can only turn the write into no write |
| `ShippedIn.WrittenIsGood` | coordinator_core/archive_stamp.py:847-859 | every written pair obeys the grammar: the token exactly with no-commit, a hex value of at most eight characters with every other kind |
| `ShippedIn.Handoff.Stamp` | coordinator_core/ops/handoff_stamp.py:193-254 | insert if absent, skip if present, replace on force, kind in lockstep |
| `ShippedIn.Handoff.StampShippedIn` | coordinator_core/archive_stamp.py:1010-1258 | the whole call: new fields, exit code and whether a write landed |
| `ShippedIn.PresentStays` | coordinator_core/archive_stamp.py:1027-1033 | a present value changes only in a call with force and an explicit value |
| `ShippedIn.KindFilled` | coordinator_core/archive_stamp.py:1212-1238 | a missing kind is filled only beside the identical value |
| `ShippedIn.FirstValueStays` | coordinator_core/archive_stamp.py:1186-1245 | over any sequence of calls without a forced replacement the first value stays |
| `ShippedIn.AlwaysLawful` | coordinator_core/archive_stamp.py:1186-1245 | over any sequence of calls the record is as found or holds a pair of the grammar |
| `CommitFacts.ReadCandidates` | coordinator_core/archive_stamp.py:420-435 | the loop over the log's records yields the candidates and fills the facts |
| `CommitFacts.WalkRoundTrip` | coordinator_core/archive_stamp.py:405-435 | the walk reads back exactly the commits git rendered, in order, if and only if no field holds a separator |
| `CommitFacts.WalkReads` | coordinator_core/archive_stamp.py:405-435 | without record separators a field separator drops its own commit and no other |
| `CommitFacts.CacheAgrees` | coordinator_core/archive_stamp.py:531-552 | for every commit, seen by the walk or not, cached date and session id equal what git answers, whenever no field holds the record separator |
| `CommitFacts.GuardsAgree` | coordinator_core/archive_stamp.py:555-748 | the two date guards and the ownership guard give the same verdict with and without the cache |
| `CommitFacts.DecisionAgrees` | coordinator_core/archive_stamp.py:1085-1182 | a stamp call decides the same with the facts of its own walk as by asking git per commit |
| `CommitFacts.SubjectReadAsRecord` | coordinator_core/archive_stamp.py:421-435 | what follows a record separator in a subject is read as a record, and the cache answers for its commit with its date and session |
| `CommitFacts.CacheDisagrees` | coordinator_core/archive_stamp.py:531-552 | so for a commit git does not have the cached date, session and ownership verdict differ from what git answers |
| `Claims.Handoff.RecordIdentity` | coordinator_core/archive_stamp.py:2151-2246 | the identity write: human inserted once, name replaced, dropped, or left alone when the lookup raised |
| `Claims.Handoff.Claim` | coordinator_core/archive_stamp.py:2433-2481 | a claim lands exactly without a live foreign holder, with a session id and a landed transition; otherwise nothing changes |
| `Claims.NeverDisplacesLive` | coordinator_core/archive_stamp.py:1986-2044 | over any sequence of whole calls no call takes the handoff from a holder known live and different |
| `Claims.HumanStays` | coordinator_core/archive_stamp.py:2207-2223 | the human claimant keeps its first value |
| `Claims.NameOfLastAnswered` | coordinator_core/archive_stamp.py:2187-2244 | the name is the one resolved in the last landed claim whose lookup did not raise, absent if that claimant has none |
| `Claims.NameUntouched` | coordinator_core/archive_stamp.py:2176-2185 | before any such claim the name is as it was found |
| `Claims.StaleNameIff` | coordinator_core/archive_stamp.py:2217-2243 | after a takeover the old holder's name stays exactly when the identity write failed or its lookup raised |
| `HookStatus.StepKeeps` | coordinator_core/async_hook_status.py:97-161 | every step of every process keeps each record in exactly one place |
| `HookStatus.EveryInterleaving` | coordinator_core/async_hook_status.py:97-161 | in every interleaving each failure is exactly one of overwritten by a later one of its hook, pending, held by one reader, or surfaced; none is surfaced twice |
| `HookStatus.OthersLeave` | coordinator_core/async_hook_status.py:138-161 | other processes never change a reader's progress, its claimed copy or its report |
| `HookStatus.StatusDir.RecordFailure` | coordinator_core/async_hook_status.py:97-111 | the marker of the hook, or of `unknown`, holds the new record |
| `HookStatus.StatusDir.ClaimNext` | coordinator_core/async_hook_status.py:138-144 | the rename succeeds exactly when the marker is still there |
| `HookStatus.StatusDir.Surface` | coordinator_core/async_hook_status.py:145-161 | read, report and delete the claimed copy while others act: exactly the claimed record is reported |
| `HookStatus.StatusDir.SurfaceAndClear` | coordinator_core/async_hook_status.py:132-165 | one pass, others acting between its steps, reports what it surfaced; undisturbed, exactly the listed markers in order, which are then gone |
| `EngineLanding.StepKeeps` | coordinator_core/_engine_landing.py:47-93 | every writer, reader, crash and clock step keeps the timing invariant |
| `EngineLanding.NoImportDuringSwap` | coordinator_core/_engine_landing.py:24-31 | over every run, with any number of swaps and crashes, no reader whose gate came out clear imports during a swap |
| `EngineLanding.StaleMarkerPasses` | coordinator_core/_engine_landing.py:78-93 | a crashed writer's marker stops blocking at its deadline |
| `EngineLanding.GraceIsTight` | coordinator_core/_engine_landing.py:24-25 | a concrete run from the start: time may pass up to the grace period, and one instant longer would let the swap start while a reader imports |
| `EngineLanding.CheckIsSteps` | coordinator_core/_engine_landing.py:78-93 | the marker check answers as the look, read and compare steps of the state machine do |
| `EngineLanding.CrashedWriterWaitedOut` | coordinator_core/_engine_landing.py:96-117 | a marker whose writer is gone is in progress at no check past the budget once its deadline lies within it |
| `EngineLanding.Gate.WaitUntilClear` | coordinator_core/_engine_landing.py:96-117 | leaves at the first clear check, the reader then importing, or past the budget, before budget plus one round; a swap that ends within the budget is waited out; one report per process |
| `ArrivalRecord.EscapeRoundTrip` | coordinator_core/arrival_record.py:66-69 | every field reads back as it was written, surrogate pairs included (section 7 of RFC 8259) |
| `ArrivalRecord.EscapeInside` | coordinator_core/arrival_record.py:66-69 | every quote in an escaped field stands behind a backslash, and no raw line feed occurs |
| `ArrivalRecord.HeadAt` | coordinator_core/arrival_record.py:73-84 | the needle's head occurs in a line only at the line's own id key |
| `ArrivalRecord.PlainAgrees` | coordinator_core/arrival_record.py:73-84 | for an id that needs no escape the substring test is record membership, whatever the other fields contain |
| `ArrivalRecord.AgreesIffPlain` | coordinator_core/arrival_record.py:73-84 | the test agrees with membership on every log exactly for such ids |
| `ArrivalRecord.EscapedMissed` | coordinator_core/arrival_record.py:73-84 | an id that needs an escape is not found in the log of its own arrival |
| `ArrivalRecord.QuoteMismatch` | coordinator_core/arrival_record.py:73-84 | a quote in the queried id can match another record's line |
| `ArrivalRecord.ArrivalStore.Append` | coordinator_core/arrival_record.py:55-70 | appends one record to the session's log, refused exactly for a bad id or session |
| `ArrivalRecord.ArrivalStore.HasArrived` | coordinator_core/arrival_record.py:73-84 | membership for plain ids; a missing log answers no; refused exactly for a bad id or session |
| `Doctor.SelectIds` | bin/claude-klabauter-doctor-probe.py:6517-6535 | selecting and then intersecting with the required ids gives exactly the ids that one manifest entry declares for both |
| `Doctor.RunProbes` | bin/claude-klabauter-doctor-probe.py:5799-5876 | every call site registers its id, only selected probes run, in order |
| `Doctor.ApplySelector` | bin/claude-klabauter-doctor-probe.py:5641-5703 | rows of the selection, then stubs in manifest order, or the error of the first registered id without a result |
| `Doctor.GatingRefinesFiltering` | bin/claude-klabauter-doctor-probe.py:5734-5762 | gating before the run emits what filtering a full run would, same order, plus stubs exactly for ids without a call site; the one exception raises |
| `Doctor.Diagnose` | bin/claude-klabauter-doctor-probe.py:6490-6544 | usage error, error or rows, each exactly when specified |
| `Doctor.EmptyIff` | bin/claude-klabauter-doctor-probe.py:5638-5639 | a selection comes out empty exactly when the manifest declares nothing for it |
| `Doctor.ReduceOverall` | bin/claude-klabauter-doctor-probe.py:245-258 | the loop computes the worst known verdict, else the first unknown one, else INFO |
| `Doctor.WorstOfBoth` | bin/claude-klabauter-doctor-probe.py:245-258 | the verdict of two lists is the join of their verdicts |
| `Doctor.OrderFreeIff` | bin/claude-klabauter-doctor-probe.py:245-258 | the verdict is independent of row order exactly when a row has a known verdict or the unknown ones agree |
| `Doctor.InfoIff` | bin/claude-klabauter-doctor-probe.py:258-258 | the verdict is INFO exactly when no row contributes |
| `Doctor.BuildRows` | bin/claude-klabauter-doctor-probe.py:268-289 | rows are built, then enriched in place from the results by id |
| `Doctor.AdvisoryOnly` | bin/claude-klabauter-doctor-probe.py:6201-6234 | advisory exactly when the verdict is bad and no required row is |
| `Doctor.StepZeroExit` | bin/claude-klabauter-doctor-probe.py:5902-5932 | exit 1 exactly when some required probe has a hard fail |
| `Doctor.RealTroubleIff` | bin/claude-klabauter-doctor-probe.py:5963-5983 | with one result per id, a bad verdict that is not advisory means exactly that a required probe failed or was skipped |
| `Doctor.StepZeroImplies` | bin/claude-klabauter-doctor-probe.py:5884-5932 | a failing step-zero exit implies a bad verdict that is not advisory |
| `Doctor.DuplicateHides` | bin/claude-klabauter-doctor-probe.py:5963-5971 | with two results under one id a required failure can be reported as advisory |
| `HandoffArchival.ReverseMembership` | coordinator_core/archival.py:185-268 | scan and filter give exactly the live children; an empty index is refused; the answer is empty exactly when the guard lets the handoff go |
| `HandoffArchival.LiveChildrenShrink` | coordinator_core/archival.py:84-182 | archive moves never add a live child anywhere |
| `HandoffArchival.AnyOrder` | coordinator_core/archive_stamp.py:1755-1820 | guarded moves carried on until nothing can move reach the same corpus in any order |
| `HandoffArchival.LeftBehindIff` | coordinator_core/archive_stamp.py:1755-1820 | a candidate is left behind exactly when it belongs to a set of handoffs that keep each other alive |
| `HandoffArchival.RunsOut` | coordinator_core/archive_stamp.py:1755-1820 | such a run always exists |
| `ModuleReach.ReachableModules` | coordinator_core/advisory_census.py:141-166 | terminates on every tree and returns exactly the in-scope existing modules reachable from the roots |
| `ModuleReach.Take` | coordinator_core/advisory_census.py:153-165 | taking up a queued module and queueing its unseen references keeps the worklist invariant |

## Left out

- Locating the registry assignment with Python's `ast`, and module constants: the model is given the lines of the assignment and the constants; literals with escapes, implicitly concatenated, parenthesised or triple-quoted values are read as unreadable.
- Line breaks other than LF and CRLF in the registry file, which `splitlines` also breaks at; how the wrapping library splits a text into chunks, which is given.
- `SchemaRevendor.Workspace.Run`: rollback writes are assumed to succeed, the byte oracles report and do not raise.
- A missed splice inside a character of several bytes, whose bytes then do not decode: the run rolls back. A missed splice that moves the end of the assignment reads as an unreadable registry.
- Upstream schema bytes that do not decode: recording the mirror blob raises for them before any write.
- The fleet corpus preflight, decline authoring, mirror refresh and listing modes of the schema re-vendor: separate commands or reports.
- `HandoffCorpus.RunsCompose`: handoff paths are assumed to hold no line break, since a path can be written into the frontmatter.
- Status, deployment state and warnings collected by the migration's parser, and its printed summary: they decide nothing that is written.
- Characters as bytes: files are sequences of characters, and source columns are counted in characters where the rewriter counts UTF-8 bytes.
- A failed tree listing in the cockpit re-vendor, which its helper turns into an empty list: the listing is assumed to succeed.
- Encodings other than UTF-8 and byte order marks, which the cockpit re-vendor's two readers take differently: the model has one reader, with undecodable bytes as an outcome of its own.
- Unicode decimal digits outside ASCII in versions and dates; JSON parsing itself, which is a parameter.
- Parsing of timestamps, session liveness, the registry and the operating human: parameters of the calls that ask them.
- Simultaneous claims: the holder is read outside the lock, so claims are sequences of whole calls.
- Two writers on one engine root: lowering the marker removes whichever marker is there, so the protocol has one writer at a time. Markers replaced atomically are always readable.
- Interrupted marker writes, crashed readers and reused process ids in the failure-marker directory.
- `EngineLanding.Gate.WaitUntilClear`: the wall clock and the monotonic clock are one clock.
- `HandoffArchival.AnyOrder`: references are by handoff, so a move does not change who names whom; resolving paths to handoffs belongs to the DAG module, which is not part of this model.
- Individual doctor probes, envelope fields other than status and required, the sentinel file and its hint: host reads and reporting.
- Module files that are not UTF-8: reading one raises out of the census, where the model reads it as a file that does not parse.
- Sorting of the census result, extraction of references from syntax trees, and the advisory census beyond reachability.
- Path and home resolvers, command-line parsing, message wording: they would only add easy members.
