# AXIOM, verified models

Dafny models of the stateful cores of the AXIOM engine, with the properties that the code relies
on proved for every input, every run or every reachable state. `dafny verify dfyconfig.toml`
checks the whole project.

- **CVM page store** (`CvmModel`, `CvmRows`, `CvmRuns`, `CvmHistory`, `CvmRecency`, `CvmStore`, `Stub`). An
  in-memory least-recently-used index over append-only session files, with a page cap per session,
  an index budget and a disk budget. `CvmModel` says what one operation does as relations on
  values; the class in `CvmStore` is proved to take exactly such steps; `CvmRuns` and `CvmHistory`
  prove what steps and whole runs keep, `CvmRecency` that both bounds shed what was used least recently. `Stub` is the one-line printer and parser of page stubs.
- **Repair loop and agent tasks** (`EditSets`, `Transactions`, `Repair`, `AgentTask`, `Stamps`).
  Edit-set identity, all-or-nothing transactions over a file map, the verifier-gated loop, the
  propose/finish task, and the lock-free allocator of modification times.
- **ChimeraLang** (`ChimeraSyntax`, `ChimeraParser`, `ChimeraLexer`, `ChimeraRoundTrip`,
  `ChimeraParens`, `ChimeraOptions`, `ChimeraSource`, `ChimeraLexable`, `ChimeraFloats`, `ChimeraVm`, `Cir`, `Beliefs`).
  Lexer, recursive-descent parser, a printer written as its specification, the evaluator on rounded
  64-bit floats, and the belief runtime over Beta distributions on reals.
- **Message partitioning and cache boundaries** (`Json`, `Sequences`, `Reminders`, `Partition`,
  `PartitionLaws`, `Breakpoints`).
- **Bounded caches** (`Recency`, `OrderedMaps`, `TttSessions`, `TttThreads`, `ExactCache`, `ResponseCache`).
- **Test-time-training algebra** (`Tensors`, `Blocks`, `TttLayer`, `ChunkKernel`), over reals.

`Common` and `Decimals` hold shared definitions.

Code that changes state is a class or a method with a loop, proved against a function or relation
on values; the properties are lemmas about that function or relation. Clocks, digests, verifiers,
proposers, adapters, token counters and the outcome of each file operation are parameters, and the
theorems hold for all of them.

## Where the code and its comments differ

The models follow the code. Each point is a lemma below, with the exact condition where there is one.

- A transaction is said never to half-apply. When a parent directory cannot be created, earlier
  edits stay (`Transactions.FailedApplyIsUndone`, `Repair.MkdirFailureLeaks`); a target that exists
  but cannot be read is deleted by rollback (`Transactions.RejectedIsUndone`).
- After an undone put the index is said to match the disk exactly. After a failed rewrite it does
  not, and neither does it after a successful append to a file that does not end in a newline, as
  a torn write leaves it: the new row joins the torn line and is lost to every scan, although the
  put reports success (`CvmRuns.WriteKeepsAgreement`, `CvmRuns.TornRewriteStaysUnended`,
  `CvmRuns.UnendedTailHidesPage`).
- The stub parser loses the session id exactly when the id holds a `]` (`Stub.StubRoundTrip`).
- Edit-sets are said to be identified by their effect. Contents with U+0001 and NUL in them collide
  with two files of any contents (`EditSets.SeparatorsCollide`); clean ones cannot
  (`EditSets.SameBytesSameEffect`).
- `decayed` is said to raise the variance. That is so for every belief exactly from two units of
  evidence on (`Beliefs.AgesSafelyIff`).
- A time to live of 0 is described as "no decay", but it is the one value that decays. In effect a
  guard never sees a failing variance otherwise (`Cir.GuardSeesOnlyTheMean`), and always sees one
  for a fresh belief with that value unless at least 21 agents were asked (`Cir.StalePassesIff`).
- The evaluator propagates confidence as a minimum (`ChimeraVm.ConfidenceIsLeast`), but no statement
  can bring in a confidence other than 1 (`ChimeraVm.ExecKeepsCertain`). `==` is not an equivalence:
  lists, infinities and NaN do not equal themselves (`ChimeraVm.EqualityLaws`), and equality does not
  pass through 0, through floats below 1, or through floats that two integers are converted to
  (`ChimeraVm.EqualityTransitsIff`).
- A printed program does not always survive the lexer: a negative number behind an operator is read
  as a subtraction. Exactly the programs without one come back (`ChimeraSource.SourceRoundTrip`).
- The chunked kernel adds a chunk's own gradient before it reads the carried weight, so it is
  causal between chunks only (`ChunkKernel.StableIffAligned`).
- The cap on live sessions can be overrun by T concurrent creations, by T - 1 sessions
  (`TttThreads.BoundIsReached`), and by more exactly when live sessions can lose their stamps: to a
  take or a clear in progress, or to an eviction that removes the stamp of a session after the
  session has come back (`TttThreads.BoundedIff`).
- A session file is said to be counted from the start. Opening does not count the file of the empty
  session id, whose name has no extension (`CvmHistory.OpenCountsAllIff`, `CvmHistory.EmptyIdUncounted`).

## Model

| member | source | states |
|---|---|---|
| CvmStore.CvmStore.OpenWithLimits | axiom_engine_rs/src/cvm_store.rs:207-245 | Opening over existing files starts with an empty index and exact lengths of all files but that of the empty id, ordered by modification time, and establishes the invariant. |
| CvmStore.CvmStore.Touch | axiom_engine_rs/src/cvm_store.rs:119-124 | The clock moves by one and only that session's stamp changes. |
| CvmStore.CvmStore.Insert | axiom_engine_rs/src/cvm_store.rs:126-138 | The running byte sum stays the sum of all entries, also when an entry is replaced. |
| CvmStore.CvmStore.Remove | axiom_engine_rs/src/cvm_store.rs:140-144 | Removing an entry never underflows the sum and keeps it exact. |
| CvmStore.CvmStore.DiskTotal | axiom_engine_rs/src/cvm_store.rs:146-148 | The total is the sum of all file lengths, in whatever order they are met. |
| CvmStore.CvmStore.ShedIndex | axiom_engine_rs/src/cvm_store.rs:329-351 | The eviction loop ends and refines the index-shedding relation: oldest first, never the caller, no further than needed, as far as needed or possible. |
| CvmStore.CvmStore.ShedDisk | axiom_engine_rs/src/cvm_store.rs:353-392 | The file-deletion loop ends and refines the disk-shedding relation, including the break at a file that cannot be deleted. |
| CvmStore.CvmStore.LoadAndTouch | axiom_engine_rs/src/cvm_store.rs:298-325 | As one atomic step: rows from the file if not cached, most recently used, then the index bound. |
| CvmStore.CvmStore.AppendRow | axiom_engine_rs/src/cvm_store.rs:404-414 | An append joins the new row to whatever stands behind the last newline and returns the new length; failing, it is cut back, or leaves its fragment there when the truncation fails too. |
| CvmStore.CvmStore.RewriteSessionFile | axiom_engine_rs/src/cvm_store.rs:418-432 | A rewrite leaves exactly the rows and returns the length, or, failing, a proper prefix of them and perhaps a torn row without a newline. |
| CvmStore.CvmStore.DropOldest | axiom_engine_rs/src/cvm_store.rs:472-484 | The page cap drops exactly the evicted prefix and keeps the byte count exact. |
| CvmStore.CvmStore.Undo | axiom_engine_rs/src/cvm_store.rs:497-506 | Undoing a failed put gives back the old rows in the old order and their byte count. |
| CvmStore.CvmStore.Put | axiom_engine_rs/src/cvm_store.rs:440-514 | A put takes exactly one step of the put relation and keeps the accounting invariant; what its stamps mean over runs is `CvmRecency.DeletesLeastRecentlyWritten`. |
| CvmStore.CvmStore.Get | axiom_engine_rs/src/cvm_store.rs:518-527 | A get returns the text of the last row with that id among the session's rows. |
| CvmStore.CvmStore.DeleteSession | axiom_engine_rs/src/cvm_store.rs:531-544 | Bookkeeping goes first, the file if the system lets it; a missing file is success. |
| CvmRows.EvictsShortestPrefix | axiom_engine_rs/src/cvm_store.rs:472-478 | The rows dropped are the shortest oldest prefix that meets the cap, and never the newest row. |
| CvmRuns.IndexShedUnique | axiom_engine_rs/src/cvm_store.rs:329-341 | The index-shedding relation has one solution: order and bound fix the survivors. |
| CvmRuns.WriteKeepsAgreement | axiom_engine_rs/src/cvm_store.rs:461-507 | Exactly when a write leaves the index a copy of the disk, per outcome of the write: a successful append needs a file that can be read to its end and ends in a newline. |
| CvmRuns.TornRewriteDisagrees | axiom_engine_rs/src/cvm_store.rs:418-432 | After a rewrite that failed half-way the file scans to a prefix of the rewritten rows and never to the rows the session had. |
| CvmRuns.TornRewriteStaysUnended | axiom_engine_rs/src/cvm_store.rs:418-432 | A torn row leaves a file to which nothing can be appended safely, and reopening the store does not notice. |
| CvmRuns.UnendedTailHidesPage | axiom_engine_rs/src/cvm_store.rs:404-514 | At such a file a put reports success and has the page in memory, but no scan of the file finds it, and an unended old row is lost with it. |
| CvmRuns.DeleteKeepsAgreement | axiom_engine_rs/src/cvm_store.rs:531-544 | Exactly when a deletion leaves no stale cached session behind. |
| CvmRuns.OwnStemIff | axiom_engine_rs/src/cvm_store.rs:168-179 | A session id has a file of its own exactly when it consists of letters, digits and hyphens. |
| CvmRuns.FailedPutRestores | axiom_engine_rs/src/cvm_store.rs:496-507 | A put whose write fails leaves every session's rows (content and order) and every count as it found them, even when rows had been evicted. |
| CvmRuns.PutMeetsIndexBound | axiom_engine_rs/src/cvm_store.rs:440-514 | After every successful put the page is in memory, and the index is within budget or holds the writer only. |
| CvmRuns.PutShedsOldest | axiom_engine_rs/src/cvm_store.rs:329-341 | Every session a put sheds from memory was touched strictly before every survivor. |
| CvmRuns.NewPageMeetsBounds | axiom_engine_rs/src/cvm_store.rs:468-513 | After a put of a new page: newest row is that page, page cap met or page alone; index in budget or writer only; disk in budget, writer's file only, or a deletion refused. |
| CvmHistory.RunInv | axiom_engine_rs/src/cvm_store.rs:118-149 | In every state of every run each entry's bytes are the sum of its rows, the index bytes the sum of entries, and touch stamps are distinct. |
| CvmHistory.IndexIsInvisible | axiom_engine_rs/src/cvm_store.rs:298-348 | Over every run of put, get, delete and reopen from any directory of files that end in a newline, a get answers what a scan of the file answers, and a put of a page the file has writes nothing. |
| CvmHistory.GetsAreAddressed | axiom_engine_rs/src/cvm_store.rs:518-527 | In every run, whatever the faults and file names, a text that is returned has the content id asked for. |
| CvmHistory.PutThenGet | axiom_engine_rs/src/cvm_store.rs:440-527 | Right after a successful put a get of its page succeeds with a text of that digest. |
| CvmHistory.RunDiskExact | axiom_engine_rs/src/cvm_store.rs:508-511 | Where writes succeed, deletions are not refused and no restart meets a page file of the empty id, the disk bookkeeping equals the file lengths in every state. |
| CvmHistory.OpenCountsAllIff | axiom_engine_rs/src/cvm_store.rs:207-245 | Opening counts every file exactly when the file of the empty id is missing or empty. |
| CvmHistory.EmptyIdUncounted | axiom_engine_rs/src/cvm_store.rs:213-216 | After a page was stored for the empty id a restart does not count its file, so the disk total is too small. |
| CvmRecency.DeletesLeastRecentlyWritten | axiom_engine_rs/src/cvm_store.rs:353-392 | In every run the files a put deletes were last written, by a successful put or by their modification time at the last opening, no later than any counted file it leaves but its own; puts within one second count in their order. Only a put that wrote deletes, and never its own file. |
| CvmRecency.DeletesOnlyAsNeeded | axiom_engine_rs/src/cvm_store.rs:353-392 | The file written last among the deleted ones was needed to get the counted sizes below the limit. |
| CvmRecency.CountedIffWritten | axiom_engine_rs/src/cvm_store.rs:508-544 | In every state of every run the counted files are exactly those whose last write is known: put since the store was opened or listed then, and neither deleted since nor refused deletion. |
| CvmRecency.ReopenRemembers | axiom_engine_rs/src/cvm_store.rs:207-245 | A restart right after a write still knows when the file was written. |
| CvmRecency.DropsLeastRecentlyUsed | axiom_engine_rs/src/cvm_store.rs:298-351 | In every run whoever a put or get drops from memory, other than together with its file, was last put to or got from before anyone who is left. |
| Stub.SplitSessionAttr | axiom_engine_rs/src/cvm_store.rs:594-626 | The index loop over the header computes the specified split at the closing quote. |
| Stub.ScanFindsClosingQuote | axiom_engine_rs/src/cvm_store.rs:598-614 | The escape scan stops at the true closing quote of the JSON string (section 7 of RFC 8259). |
| Stub.UnescapeEscape | axiom_engine_rs/src/cvm_store.rs:572-574 | Decoding an encoded JSON string gives the string back, for every string. |
| Stub.StubRoundTrip | axiom_engine_rs/src/cvm_store.rs:563-655 | Parsing a built stub gives back id, session, count, kind and the first 120 characters with blanks for line breaks, exactly when the session id has no closing bracket. |
| Stub.BareStub | axiom_engine_rs/src/cvm_store.rs:594-655 | A stub without the session attribute is read with no session; without a kind it is no stub. |
| Stub.StubIsOneLine | axiom_engine_rs/src/cvm_store.rs:556-576 | A built stub is a single line for every session id and text. |
| EditSets.ComputeFingerprint | axiom_engine_rs/src/agentic.rs:140-153 | The loop over the latest contents in path order, whatever total order that is, hashes the serialisation of the effective map. |
| EditSets.OrderIrrelevant | axiom_engine_rs/src/agentic.rs:133-153 | Two edit-sets have one effect exactly when the last write for every path is the same; then their fingerprints agree, whatever the order and the redundant entries. |
| EditSets.OverwrittenIrrelevant | axiom_engine_rs/src/agentic.rs:133-153 | An edit overwritten later does not change the fingerprint. |
| EditSets.DecodeSerialise | axiom_engine_rs/src/agentic.rs:145-151 | In every path order the serialisation decodes to the effective map when contents hold no U+0001 and paths no NUL. |
| EditSets.SameBytesSameEffect | axiom_engine_rs/src/agentic.rs:133-153 | Clean edit-sets with different effects never serialise alike. |
| EditSets.SeparatorsCollide | axiom_engine_rs/src/agentic.rs:145-151 | Without that condition any two files serialise, in either path order, to the same bytes as one file whose content holds the separators. |
| Transactions.Transaction.Apply | axiom_engine_rs/src/agentic.rs:173-205 | Applying succeeds with the overlay and a full snapshot, or fails leaving the specified files, per fault. |
| Transactions.Transaction.Rollback | axiom_engine_rs/src/agentic.rs:215-231 | Rollback restores every snapshotted file, in any order. |
| Transactions.Transaction.Commit | axiom_engine_rs/src/agentic.rs:208-211 | Commit keeps the files and disarms the drop. |
| Transactions.Transaction.Drop | axiom_engine_rs/src/agentic.rs:234-242 | Dropping rolls back exactly when not committed. |
| Transactions.RejectedIsUndone | axiom_engine_rs/src/agentic.rs:155-231 | Apply then rollback gives back every file exactly when no target existed unreadable. |
| Transactions.FailedApplyIsUndone | axiom_engine_rs/src/agentic.rs:171-201 | Exactly when a failed apply leaves every file as it was, for write and directory failures. |
| Repair.AttemptMemory.WasRejected | axiom_engine_rs/src/agentic.rs:257-262 | True exactly when the fingerprint is remembered for the objective. |
| Repair.AttemptMemory.RecordRejected | axiom_engine_rs/src/agentic.rs:265-271 | The memory grows by that fingerprint once, for that objective only. |
| Repair.RunAgentic | axiom_engine_rs/src/agentic.rs:374-429 | The imperative loop computes the recursive specification of the run, files and memory included; `Repair.SolvedIff` says when that is solved. |
| Repair.SolvedIff | axiom_engine_rs/src/agentic.rs:374-429 | Where attempts can be undone, a run is solved exactly if some attempt up to the maximum proposes a non-empty edit-set, new to memory and run, whose apply succeeds and which train and holdout accept over the initial files; the first such attempt ends it, with exactly that edit-set in the files; otherwise all attempts are made and no file changes. |
| Repair.AnswersExist | axiom_engine_rs/src/agentic.rs:383-395 | For every proposer there are the answers that this speaks of: what it says to the failure of the initial files, the attempt, and the number rejected so far. |
| Repair.NeverTriedAgain | axiom_engine_rs/src/agentic.rs:395-422 | Over every run no known-rejected edit-set is applied, none twice, and the rejected count is exactly the growth of the memory. |
| Repair.DistinctEffects | axiom_engine_rs/src/agentic.rs:133-153 | With clean contents and an injective digest, distinct attempts have distinct effects. |
| Repair.AttemptUndone | axiom_engine_rs/src/agentic.rs:402-422 | One unaccepted attempt leaves all files unchanged exactly when it is undoable. |
| Repair.AllOrNothing | axiom_engine_rs/src/agentic.rs:347-429 | Solved means the initial files overlaid by one edit-set that train and holdout accept; unsolved means every file is what it was. |
| Repair.MkdirFailureLeaks | axiom_engine_rs/src/agentic.rs:186-190 | A directory failure after a first write ends unsolved with that edit in place. |
| AgentTask.AgentTask.Start | axiom_engine_rs/src/agent_task.rs:84-160 | Starting snapshots every listed file, and refuses exactly when one exists but cannot be read. |
| AgentTask.AgentTask.ProposeEdits | axiom_engine_rs/src/agent_task.rs:169-255 | A proposal takes exactly the specified step through allowlist, memory, transaction and verifier. |
| AgentTask.VerdictIsTheVerifiers | axiom_engine_rs/src/agent_task.rs:169-255 | In every run a proposal to an open task is refused exactly for the first of: a path outside the allowlist, no edits, an edit-set the verifier refused before, a fault while applying. Otherwise it passes exactly if the verifier accepts the files overlaid by it, with the verifier's text, and then the files are that overlay; refused, they are what they were exactly if no target existed unreadable. |
| AgentTask.AgentTask.FinishTask | axiom_engine_rs/src/agent_task.rs:269-291 | Finishing takes a specified step, for any order of the map and any refused path. |
| AgentTask.TaskIsSound | axiom_engine_rs/src/agent_task.rs:169-255 | In every state of every run: history length equals attempt and never exceeds the maximum, entries numbered from one, passed entries are the passed edit-sets, nothing outside the allowlist changed. |
| AgentTask.RejectedNeverReapplied | axiom_engine_rs/src/agent_task.rs:222-255 | In every run an edit-set that the verifier rejected never reaches the files again. |
| AgentTask.FilesAreThePassedAttempts | axiom_engine_rs/src/agent_task.rs:116-255 | The files are the start files overlaid by exactly the passed attempts in order. |
| AgentTask.AbandonRestoresStart | axiom_engine_rs/src/agent_task.rs:269-291 | A successful abandon gives back the start files exactly, after any proposals and any finishes that failed part-way. |
| AgentTask.FinishedIsFinal | axiom_engine_rs/src/agent_task.rs:169-275 | Once finished, no operation changes anything. |
| Stamps.Cell.MarkFresh | axiom_engine_rs/src/agentic.rs:76-103 | One call's retry loop ends, whatever it read and however others raised the cell meanwhile, with the stamp that follows what they left: above every earlier one, at least its clock, later than the old mtime. |
| Stamps.StampsIncrease | axiom_engine_rs/src/agentic.rs:88-99 | For every interleaving, lost and spuriously failed swaps included, stamps are strictly increasing, not before the caller's clock, later than the previous mtime. |
| Stamps.StampNotBeforeCall | axiom_engine_rs/src/agentic.rs:82-85 | Rounding the clock up makes the stamp no earlier than the call and, unless something earlier forces it up, less than a second later. |
| Stamps.StampsStayClose | axiom_engine_rs/src/agentic.rs:71-75 | After k stamps the last is at most k seconds ahead of the latest clock, when earlier mtimes are not in the future. |
| ChimeraLexer.LexSource | axiom_engine_rs/src/chimera.rs:77-232 | The cursor loop computes the specified tokens on every ASCII source and terminates. |
| ChimeraOptions.CommentEndsWithLine | axiom_engine_rs/src/chimera.rs:89-94 | A comment is passed over up to the end of its line, whatever is in it. |
| ChimeraOptions.BlanksSkipped | axiom_engine_rs/src/chimera.rs:85-88 | Outside of tokens and comments exactly the five ASCII blanks are passed over. |
| ChimeraOptions.EscapesMean | axiom_engine_rs/src/chimera.rs:152-180 | In a string an escaped n is a newline, an escaped t a tab, and any other escaped character itself. |
| ChimeraParser.Parser.ParseCmp | axiom_engine_rs/src/chimera.rs:544-564 | The comparison loop parses exactly the chain of the grammar and moves on. |
| ChimeraParser.Parser.ParseAdd | axiom_engine_rs/src/chimera.rs:566-582 | The same for sums. |
| ChimeraParser.Parser.ParseMul | axiom_engine_rs/src/chimera.rs:584-600 | The same for products. |
| ChimeraParser.Parser.ParsePostfix | axiom_engine_rs/src/chimera.rs:602-612 | The same for member access. |
| ChimeraParser.Parser.ParsePrimaryExpr | axiom_engine_rs/src/chimera.rs:614-644 | Literals, names, parentheses and lists, as the grammar has them. |
| ChimeraParser.Parser.Statement | axiom_engine_rs/src/chimera.rs:384-454 | Each statement form is parsed as the grammar has it. |
| ChimeraParser.Parser.ParseAll | axiom_engine_rs/src/chimera.rs:365-382 | The parser object computes the grammar function on every token sequence, and terminates because the rest shrinks. |
| ChimeraRoundTrip.ParseLevelPrint | axiom_engine_rs/src/chimera.rs:541-644 | At every precedence level a printed expression is parsed back, whatever may follow it. |
| ChimeraRoundTrip.ParsingUndoesPrinting | axiom_engine_rs/src/chimera.rs:365-644 | Parsing the printed tokens of a program returns that program, consumes exactly those tokens and routes it to the right runtime. |
| ChimeraRoundTrip.PrintingIsInjective | axiom_engine_rs/src/chimera.rs:365-644 | Different programs print differently. |
| ChimeraParens.FewestParentheses | axiom_engine_rs/src/chimera.rs:541-644 | No token sequence that parses to a program has fewer parentheses than its printed form: each printed pair is needed by precedence or left associativity. |
| ChimeraParens.SameMinuses | axiom_engine_rs/src/chimera.rs:566-582 | Every token sequence that parses to a program has exactly the minus signs of its printed form. |
| ChimeraOptions.OptionsRead | axiom_engine_rs/src/chimera.rs:416-454 | `resolve`, `guard` and `evolve` read options in any order and number, commas optional: the last number given for the key counts, the default if there is none, words and other keys mean nothing, and any other value is an error; `max_iter` is truncated into 32 bits. |
| ChimeraOptions.BeliefRead | axiom_engine_rs/src/chimera.rs:456-504 | A belief reads its fields in any order and number: lists of agents add up, the last prompt and the last time to live count, the latter at least 0. |
| ChimeraOptions.CommasOptional | axiom_engine_rs/src/chimera.rs:628-640 | The commas of a list may be left out one by one, and one may follow the last item. |
| ChimeraSource.LexUndoesRender | axiom_engine_rs/src/chimera.rs:77-232 | Rendered tokens, finite decimal fractions included, lex back to themselves exactly when every negative number stands where a minus is a sign. |
| ChimeraSource.SourceRoundTrip | axiom_engine_rs/src/chimera.rs:652-658 | The source text written from a program lexes and parses back to it exactly under that condition. |
| ChimeraLexable.LexRange | axiom_engine_rs/src/chimera.rs:77-232 | A token sequence is the lexing of some ASCII source exactly when every token has a spelling and every negative number stands where a minus is a sign. |
| ChimeraLexable.RenderingNormalises | axiom_engine_rs/src/chimera.rs:77-232 | The tokens of any ASCII source that lexes, rendered, lex to the same tokens: spacing, comments, escapes and number formats carry nothing. |
| ChimeraVm.Machine.Run | axiom_engine_rs/src/chimera.rs:749-793 | The statement machine changes environment and output exactly as specified, errors included. |
| ChimeraVm.ConfidenceIsLeast | axiom_engine_rs/src/chimera.rs:795-843 | The confidence of a value is the least of 1 and the confidences of the variables that reach it. |
| ChimeraVm.ExecKeepsCertain | axiom_engine_rs/src/chimera.rs:749-843 | From certain variables every statement binds values of confidence 1 at every depth. |
| ChimeraVm.EqualityLaws | axiom_engine_rs/src/chimera.rs:896-907 | `==` is symmetric, a value equals itself exactly when it is neither a list nor an infinity nor NaN, without floats and lists it is identity, and `!=` is its negation. |
| ChimeraVm.EqualityTransitsIff | axiom_engine_rs/src/chimera.rs:896-907 | On 64-bit integers and floats `==` is transitive through an integer exactly if it is not 0, and through a finite float exactly if its size is at least 1 and no two integers are converted to it. |
| ChimeraVm.SmallOneInteger | axiom_engine_rs/src/chimera.rs:896-907 | No two integers are converted to one float of size below 2^53. |
| ChimeraVm.ComparisonLaws | axiom_engine_rs/src/chimera.rs:869-883 | Comparisons fail exactly on what is not a number, are false with NaN, and are otherwise one total order on integers and floats together, on finite ones that of the reals. |
| ChimeraVm.IntegersAreExact | axiom_engine_rs/src/chimera.rs:845-868 | A term of integers, integer variables, `+`, `-` and `*` prints the integer it denotes, so that subtracting and adding back, or distributing a product, prints the same. |
| ChimeraVm.TextsJoin | axiom_engine_rs/src/chimera.rs:856-868 | A sum with a string on either side prints what its sides print, one after the other; without one it fails exactly if a side is not a number. |
| ChimeraVm.FloatsAreRounded | axiom_engine_rs/src/chimera.rs:847-868 | With a float among finite numbers, sum, difference and product are the true ones, rounded once. |
| ChimeraVm.BoundIsPrinted | axiom_engine_rs/src/chimera.rs:749-769 | Binding an expression and emitting the name prints what emitting the expression prints, and binds nothing else. |
| ChimeraVm.MembersPrinted | axiom_engine_rs/src/chimera.rs:812-826 | `.confidence` prints the least confidence of the variables that reach the value, `.raw` the value, and any other member is an error. |
| ChimeraVm.DisplayForms | axiom_engine_rs/src/chimera.rs:700-722 | Strings print as they are, booleans as in the source, lists in brackets with a comma and a blank between items. |
| ChimeraVm.ListsInOrder | axiom_engine_rs/src/chimera.rs:804-811 | A list holds the values of its items in their order and fails only as one of them does. |
| ChimeraVm.LoopsInOrder | axiom_engine_rs/src/chimera.rs:770-786 | A loop over a list prints its items in order, over a string its characters, and fails on anything else. |
| ChimeraVm.LoopSplits | axiom_engine_rs/src/chimera.rs:770-786 | A loop over two runs of items is the one loop followed by the other, errors included. |
| Cir.Inquire | axiom_engine_rs/src/chimera.rs:1034-1063 | The loop over agents fuses their answers to the specified belief and keeps the last answer. |
| Cir.EvolveBelief | axiom_engine_rs/src/chimera.rs:1118-1142 | The bounded re-inquiry loop computes the specified belief and stops by the variance test. |
| Cir.Interpreter.Do | axiom_engine_rs/src/chimera.rs:1023-1158 | Each statement of a belief program takes exactly its specified step. |
| Cir.Interpret | axiom_engine_rs/src/chimera.rs:1018-1161 | The interpreter's loop computes the specified run; the first failing statement fails it. |
| Cir.BeliefsHeld | axiom_engine_rs/src/chimera.rs:1018-1161 | In every run, for every program and adapter, exactly the declared beliefs are held, with alpha and beta positive, mean strictly in (0,1), variance below 1/4 and at most 1/12. |
| Cir.RunReports | axiom_engine_rs/src/chimera.rs:1145-1153 | Every belief mean emitted or reported in a run is strictly in (0,1), and every variable stays certain. |
| Cir.GuardSeesOnlyTheMean | axiom_engine_rs/src/chimera.rs:1098-1117 | In every run a guard on a belief declared with nonzero ttl records a violation exactly when the mean is below 1 - max_risk. |
| Cir.ResolveSeesTheMean | axiom_engine_rs/src/chimera.rs:1083-1097 | In every run `resolve` fails exactly on a belief never declared, and otherwise records a violation exactly when the mean is below the threshold, and changes nothing else. |
| Cir.DeclarationAsksAll | axiom_engine_rs/src/chimera.rs:1034-1082 | In every run a declaration asks every agent once, in order, keeps the last answer, and changes no other belief, variable or output. |
| Cir.OnlyAskedMatters | axiom_engine_rs/src/chimera.rs:1041-1063 | The fused belief depends on nothing but what each agent by itself is answered in turn. |
| Cir.OneAgentIsBelieved | axiom_engine_rs/src/chimera.rs:1027-1153 | In every run a belief of one agent or none, not stale, is emitted and reported with that agent's answer and its confidence, kept off 0 and 1. |
| Cir.EvolveSettles | axiom_engine_rs/src/chimera.rs:1118-1142 | In every run `evolve` asks again until the first inquiry that does not move the variance, or its bound, and changes nothing but that belief. |
| Cir.StalePassesIff | axiom_engine_rs/src/chimera.rs:1064-1117 | With ttl 0 some answers and some allowed risk let the guard pass exactly when at least 21 agents are asked. |
| Beliefs.Tracker.Reinforce | axiom_engine_rs/src/belief.rs:105-107 | One success raises the mean and changes nothing else. |
| Beliefs.Tracker.Penalize | axiom_engine_rs/src/belief.rs:110-112 | One failure lowers the mean and changes nothing else. |
| Beliefs.MeanAndVariance | axiom_engine_rs/src/belief.rs:71-78 | Positive parameters give a mean strictly in (0,1) and a variance in (0,1/4), at most 1/12 from two units of evidence. |
| Beliefs.FromConfidenceInformed | axiom_engine_rs/src/belief.rs:62-69 | Every confidence and strength gives a belief of that evidence (at least 2) with the clamped confidence as mean. |
| Beliefs.RefusesOnlyOpposites | axiom_engine_rs/src/belief.rs:128-146 | Combination refuses only when one mean is above 0.8 and the other below 0.2. |
| Beliefs.RefusesClearOpposites | axiom_engine_rs/src/belief.rs:128-146 | It always refuses means of at least 0.9 against at most 0.1. |
| Beliefs.UniformIsIdentity | axiom_engine_rs/src/belief.rs:142-145 | The uniform belief is the identity of combination exactly for parameters of at least 1e-6. |
| Beliefs.FusionCommutes | axiom_engine_rs/src/belief.rs:128-187 | Combination and averaging do not depend on the order of the sources. |
| Beliefs.AwareFusionKeeps | axiom_engine_rs/src/belief.rs:191-201 | The conflict-aware merge of informed beliefs is informed, for every reliability. |
| Beliefs.MurphyIsTheAverage | axiom_engine_rs/src/belief.rs:175-187 | Where the floor does not bite, the fallback has the average mean and the average evidence of its sources. |
| Beliefs.UntrustedHasNoInfluence | axiom_engine_rs/src/belief.rs:148-201 | A source of reliability 0 changes nothing, whatever it claims. |
| Beliefs.DecayNeverLowersVariance | axiom_engine_rs/src/belief.rs:114-122 | With evidence of at least 2, ageing by any factor never lowers the variance. |
| Beliefs.AgesSafelyIff | axiom_engine_rs/src/belief.rs:114-122 | Two units of evidence are exactly what that needs. |
| Reminders.SplitReminders | axiom_engine_rs/src/anthropic_forwarder.rs:335-363 | The loop computes the remainder and the spans of the specification and terminates. |
| Reminders.PiecesWeave | axiom_engine_rs/src/anthropic_forwarder.rs:335-363 | Gaps and spans woven together are exactly the original text. |
| Reminders.PiecesShape | axiom_engine_rs/src/anthropic_forwarder.rs:335-363 | Every span starts with the opening tag and ends at its first closing tag; only the last may be unclosed, with nothing after it; no gap holds an opening tag. |
| Partition.SplitAny | axiom_engine_rs/src/anthropic_forwarder.rs:365-490 | Content of each shape is split as specified, by the loops of the source. |
| Partition.PartitionMessages | axiom_engine_rs/src/anthropic_forwarder.rs:257-319 | The message loop computes the specified partition. |
| PartitionLaws.AllSurvive | axiom_engine_rs/src/anthropic_forwarder.rs:257-490 | System messages and all non-text blocks survive in order; those of the newest message with their content too. |
| PartitionLaws.AbsorbedKeepsFields | axiom_engine_rs/src/anthropic_forwarder.rs:452-481 | An absorbed tool result keeps its tool_use_id and every field but content, which is never empty. |
| PartitionLaws.HeavyIsAllHeavyText | axiom_engine_rs/src/anthropic_forwarder.rs:365-490 | The extracted texts are exactly the remainders of all heavy texts on offer, in order. |
| PartitionLaws.ToolTextIff | axiom_engine_rs/src/rebase.rs:109-135 | A tool result offers its text exactly if it has some and nothing but text: its string, or its parts on lines of their own. |
| PartitionLaws.ExtractionDivides | axiom_engine_rs/src/anthropic_forwarder.rs:388-433 | The extracted remainder and the kept spans together are exactly the characters of the heavy text. |
| PartitionLaws.RemindersSurvive | axiom_engine_rs/src/anthropic_forwarder.rs:321-334 | Every reminder span of a heavy block stands in what is kept of that block. |
| PartitionLaws.LightPassesUnchanged | axiom_engine_rs/src/anthropic_forwarder.rs:365-490 | A message all of whose texts are below the threshold without their reminders passes unchanged unless its content is empty or blank. |
| PartitionLaws.DroppedOnlyIfTaken | axiom_engine_rs/src/anthropic_forwarder.rs:301-311 | A message is dropped only when blank or empty or when all its content was extracted. |
| PartitionLaws.TargetIsLastUser | axiom_engine_rs/src/anthropic_forwarder.rs:306-311 | The target index is the last surviving user message, and missing exactly when none survives. |
| PartitionLaws.PartitionLosesNothing | axiom_engine_rs/src/anthropic_forwarder.rs:257-490 | For the rules in force, every threshold and counter: all but text survives in order, exactly the heavy texts are taken, and the target is the last surviving user message. |
| PartitionLaws.PayloadKeeps | axiom_engine_rs/src/anthropic_forwarder.rs:551-583 | The outbound list changes the target only or adds one turn; all non-text survives it exactly when the target's content has a documented shape. |
| PartitionLaws.PayloadTarget | axiom_engine_rs/src/anthropic_forwarder.rs:551-583 | The target keeps its role and every other field, and its content has the block in front of the whole old one: a string behind a blank line, a list behind one text block, null as the block alone. Without a target the added turn is a user turn with the block alone, exactly if a text was extracted. |
| PartitionLaws.PrependedInFront | axiom_engine_rs/src/anthropic_forwarder.rs:652-665 | A message with the block put in front keeps every other field and the whole old content: a string behind a blank line, a list behind one text block, null as the block alone, anything else as its text. |
| Breakpoints.Request.EnsureStaticBreakpoint | axiom_engine_rs/src/cache_stack.rs:47-82 | True with the specified body, or false with the body unchanged, on every body and length. |
| Breakpoints.FrozenPrefixLen | axiom_engine_rs/src/cache_safety.rs:49-63 | The loop returns the last marked position plus one, or the automatic-caching fallback. |
| Breakpoints.OneMarker | axiom_engine_rs/src/cache_stack.rs:47-90 | After a placement the body has exactly one marker, on the last object block of the last static message. |
| Breakpoints.NothingElseChanges | axiom_engine_rs/src/cache_stack.rs:44-82 | Every other message and every other field of the body is unchanged. |
| Breakpoints.PlacesIff | axiom_engine_rs/src/cache_stack.rs:47-82 | A breakpoint is placed exactly if the body has no marker and the last static message has a text or an object block to put it on. |
| Breakpoints.ContentKept | axiom_engine_rs/src/cache_stack.rs:58-82 | The boundary message keeps its content: a text becomes one block with that text, a list changes in nothing but the marker of its last object. |
| Breakpoints.PlacementFreezes | axiom_engine_rs/src/cache_safety.rs:26-63 | After a placement the frozen prefix is exactly the static messages. |
| Breakpoints.SecondCallRefuses | axiom_engine_rs/src/cache_stack.rs:48-50 | A second placement, for any length, is refused. |
| Json.PathHasMarker | axiom_engine_rs/src/cache_stack.rs:84-90 | Whatever path leads to an object with a marker, the recursive search finds it. |
| Json.MarkerHasPath | axiom_engine_rs/src/cache_safety.rs:26-34 | When the search answers yes there is a path to a marker. |
| Recency.TouchThenTruncate | axiom_engine/response_cache.py:103-109 | A bounded recency list is always the end of the unbounded one. |
| OrderedMaps.PopOldest | axiom_engine_rs/src/cache_stack.rs:158-162 | Popping the oldest key keeps order and keys in agreement and does not change what the bound will leave. |
| Recency.ByLastUseOrder | axiom_engine/response_cache.py:93-101 | The recency list is ordered by time of last use. |
| ResponseCache.Cache.constructor | axiom_engine/response_cache.py:75-87 | A new cache holds what the file holds, or nothing. |
| ResponseCache.Cache.LoadFromDisk | axiom_engine/response_cache.py:126-138 | Loading first makes the dict that JSON parsing makes of the members (first place, last value of each key) and then skips what is not a string. |
| ResponseCache.LoadedIsLast | axiom_engine/response_cache.py:126-138 | A key is loaded exactly when its last member in the file is a string, and with that string. |
| ResponseCache.Cache.Get | axiom_engine/response_cache.py:93-101 | A hit returns the value, moves the key to the end and counts; a miss changes the count only. |
| ResponseCache.Cache.Put | axiom_engine/response_cache.py:103-109 | A put ends within the bound by dropping the oldest keys, also after an oversized load, and writes the file if it can. |
| ResponseCache.Cache.Clear | axiom_engine/response_cache.py:111-116 | Clearing empties the cache and the file. |
| ResponseCache.ReloadIsExact | axiom_engine/response_cache.py:126-150 | The file written by a put reads back to the same contents in the same order. |
| ResponseCache.RunHolds | axiom_engine/response_cache.py:93-138 | After every history of puts, gets, clears and restarts from any file the cache is exactly the bounded list of last used keys, each with its latest value, and the file holds what a new process would load. |
| ResponseCache.HitIffRecent | axiom_engine/response_cache.py:93-138 | A lookup hits exactly the keys that this leaves visible, with the latest value put or loaded; once anything was put there are at most as many as the bound. |
| ExactCache.Cache.Lookup | axiom_engine_rs/src/cache_stack.rs:140-151 | A lookup returns what the map holds and counts one hit or one miss. |
| ExactCache.Cache.Put | axiom_engine_rs/src/cache_stack.rs:153-166 | A store keeps the queue equal to the key set without duplicates, within capacity; capacity 0 stores nothing. |
| ExactCache.RunIsFifo | axiom_engine_rs/src/cache_stack.rs:120-166 | After any history the store holds the last entries first-in-first-out, each with the latest value. |
| TttSessions.Store.Touch | axiom_engine_rs/src/context_compressor.rs:115-120 | The id becomes the most recent one; stamps stay distinct and behind the clock. |
| TttSessions.Store.Victim | axiom_engine_rs/src/context_compressor.rs:127-142 | The victim is the oldest id other than the kept one, else any session without a stamp. |
| TttSessions.Store.MakeRoom | axiom_engine_rs/src/context_compressor.rs:124-155 | The eviction loop ends with the specified list; evicted and live ids part the old ones. |
| TttSessions.Store.GetOrCreate | axiom_engine_rs/src/context_compressor.rs:159-180 | A live id is returned and touched; a new one enters a list truncated to the cap, also when creation fails after the eviction. |
| TttSessions.Store.InsertStates | axiom_engine_rs/src/context_compressor.rs:184-192 | The same refinement for hydrated states. |
| TttSessions.Store.TakeSession | axiom_engine_rs/src/context_compressor.rs:211-214 | The session leaves map and stamps together. |
| TttSessions.Store.Clear | axiom_engine_rs/src/context_compressor.rs:227-230 | Nothing is left. |
| TttSessions.RoomForNew | axiom_engine_rs/src/context_compressor.rs:124-146 | For a new id exactly the shortest oldest part is evicted. |
| TttThreads.StartSafe | axiom_engine_rs/src/context_compressor.rs:105-113 | A new store, with every thread idle, meets the invariant from which runs are bounded. |
| TttThreads.RunBounded | axiom_engine_rs/src/context_compressor.rs:124-180 | For every interleaving of T creating threads with uses, takes, clears and half-done evictions, the sessions that have not lost their stamp while live never exceed cap + T - 1. |
| TttThreads.BoundIsReached | axiom_engine_rs/src/context_compressor.rs:159-180 | That bound is the best possible: from an empty store some interleaving reaches it with no stamp lost, for every cap and number of threads. |
| TttThreads.TakesOverrun | axiom_engine_rs/src/context_compressor.rs:211-214 | With takes in progress, stamp removed and session not yet, T threads can reach cap + T sessions, for every cap and number of threads. |
| TttThreads.LateOverrun | axiom_engine_rs/src/context_compressor.rs:144-147 | So can evictions whose victim comes back before its stamp is removed, for every cap and from two threads on. |
| TttThreads.BoundedIff | axiom_engine_rs/src/context_compressor.rs:124-214 | The size stays within cap + T - 1 in all runs exactly if none of the two is possible: no stamp of a live session is forgotten and, with more than one thread, no id comes in while its stamp is still to be removed. |
| TttLayer.SplitMergeInverse | axiom_engine/ttt_layer.py:44-52 | Splitting into heads and merging them are inverse to each other, on every column. |
| TttLayer.EffectiveCausal | axiom_engine/ttt_layer.py:94-114 | The masked Gram matrix times the masked logits stays lower triangular, and its rows need earlier rows only. |
| TttLayer.PrefillCorrectsAttention | axiom_engine/ttt_layer.py:104-117 | The prefill of a head is plain causal attention minus the Gram-weighted attention of the same and earlier positions. |
| TttLayer.PrefillRow | axiom_engine/ttt_layer.py:58-125 | Every entry of the whole prefill as finite sums of the three projections of the input: per head causal attention less the key-weighted attention of rows up to it, then the output weights. |
| TttLayer.PrefillCausal | axiom_engine/ttt_layer.py:58-125 | Row i of the whole prefill, projections and heads included, depends on rows up to i only; so prefill of a prefix is the prefix of prefill. |
| TttLayer.StepContracts | axiom_engine/ttt_layer.py:180-188 | One step multiplies the reconstruction error by 1 - eta (k . k). |
| TttLayer.StepsContract | axiom_engine/ttt_layer.py:180-188 | n steps on one pair multiply it by the n-th power. |
| TttLayer.OrthogonalUntouched | axiom_engine/ttt_layer.py:183-188 | Directions orthogonal to the key are untouched. |
| TttLayer.NormalizedLength | axiom_engine/ttt_layer.py:177-178 | The normalised key has square length 1 unless the key is shorter than 1e-12; a zero key stays zero. |
| TttLayer.DecodeContracts | axiom_engine/ttt_layer.py:172-188 | With the layer's own key: factor exactly 1 - eta per step; a zero key leaves the matrix unchanged. |
| TttLayer.DecodeReads | axiom_engine/ttt_layer.py:187-192 | The decoded answer is the old reading moved by the residual in proportion to the overlap of query and key. |
| ChunkKernel.ForwardChunkFused | axiom_engine_rs/src/chunk_kernel.rs:84-172 | The chunk loop computes the per-chunk closed form for every row and the final carried weight, and refuses empty bounds. |
| ChunkKernel.FuseChunk | axiom_engine_rs/src/chunk_kernel.rs:103-160 | One turn of the loop computes the rows of its chunk and the next carried weight. |
| ChunkKernel.RowInFull | axiom_engine_rs/src/chunk_kernel.rs:84-172 | Every row of the output as two sums over rows of the input: scaled causal attention to the rows of its own chunk up to itself, and a recall of the keys by the values of all rows up to the end of that chunk, each over the length of its chunk. |
| ChunkKernel.CarriedInFull | axiom_engine_rs/src/chunk_kernel.rs:130-150 | The carried weight is one sum over all rows so far, each over the length of its chunk. |
| ChunkKernel.ChunkCausal | axiom_engine_rs/src/chunk_kernel.rs:103-160 | A chunk's output depends on the input up to its own end only. |
| ChunkKernel.StableIffAligned | axiom_engine_rs/src/chunk_kernel.rs:84-172 | At every scale the kernel is prefix-stable exactly at block-aligned lengths and at the full length. |

## Left out

- CVM store: each public operation is one atomic step; the window between reading a file and taking the write lock is not modelled.
- CVM store: parsing of limits, statistics, log lines, and lock poisoning; the JSON encoding of a row is only a length.
- CVM store: a session file that exists but cannot be opened for reading, and writers outside the process.
- CvmHistory.IndexIsInvisible: for session ids with distinct file names, files that can be read to their end and end in a newline, and no torn write; `CvmRuns.WriteKeepsAgreement` says for each write exactly when agreement is lost.
- Edit-sets: path normalisation and lossy path text; paths are byte strings in any total order.
- Transactions: I/O errors during rollback, directories left behind, and symbolic links.
- Agent tasks: directories listed as files, the mutation-score gate, the registry, and the verifier process.
- Stamps: clocks before 1970, and file systems that refuse a modification time.
- ChimeraVm.IntegersAreExact: integers are unbounded; what 64-bit overflow does depends on how the program is built.
- ChimeraLang: error texts and trace lines, the sign of a float zero, the quotient of floats (any function), and non-ASCII source; options of statements are reals.
- Beliefs and CIR: reals stand for 32- and 64-bit floats; `is_plausible`, labels and certificates.
- Partitioning: order of keys in JSON objects, the fingerprint texts, and the digest that may precede them.
- TttSessions.Store.Victim: the scan is atomic; in the threaded model the search takes time and the choice of victim is arbitrary instead.
- TttThreads.BoundedIff: the size of the map is read at one moment, and each single insertion, lookup or removal of the map is one step.
- ExactCache: the key digest and the hit rate. ResponseCache: the request fingerprint, the JSON text of the file, and a file that is not UTF-8.
- TTT layers: batch dimensions, data types, devices, shape assertions, and the cached mask of the kernel.
- ChunkKernel.ForwardChunkFused: `1 / sqrt(d)` is an arbitrary factor, and one head stands for all.
- HTTP servers and clients, credentials, dashboards, training and crawling code: input and output only.
- Price tables, provider failover, adaptive thresholds and branch weights: they would only add easy members.
