# A verified model of unring

unring runs a command so that what it did can be reviewed and then kept or undone. This
project models, in Dafny, the parts of it whose correctness is hardest to see, and
proves what they promise.

**One PostgreSQL transaction for many clients** (`accounting`, `postgres`,
`shared_session`, `proxy`, `interleaving`, `finalize`, `exactness`, `dedicated`,
`query_strings`, `sessions`, `sample_queries`, `leases`, `escapes`, `truncate`). Clients
open blocks, define savepoints, send queries and extended-query cycles; the proxy turns
all of it into private savepoints of one backend transaction. `Postgres.Backend` is that
backend: a savepoint stack and per-table counters that an abort does not take back.
`Proxying.Proxy` and `Proxying.ClientState` hold the fields the Go records update in
place, and their methods are the message handlers, run while the session lock is held.
`SharedSession` says, without backend savepoints or counters, what each message does and
what is replied. Every handler is proved to follow that view, to leave exactly the
savepoints of the open block on the backend, and to keep books in which the row ledger
credits the surviving effects. On the view itself whole runs are proved: no client
disturbs another's block, a sealed complete summary is what COMMIT commits, and it is
known exactly when a complete summary lists the true rows. `Dedicated`, `QueryStrings`
and `Sessions` compare the proxy with a PostgreSQL session of the client's own, for
query strings and for cycles of the extended protocol, and say exactly which of them are
answered alike. `Leases` says what everybody is sent beside another client's block, and
that what is answered as done is part of the work unless its cycle or string fails.

**Restoring files** (`file_trees`, `sidecars`, `sorting`, `restore`, `restore_order`,
`restore_frame`, `restore_again`, `restore_reach`, `restore_ends`, `restore_steps`,
`round_trip`, `forced_restore`, `restore_conflicts`, `restorer`, `diffing`,
`session_restore`). A tree maps paths to nodes with type, content, link target and mode.
`Restorer.RestoreExecution` restores the changes of a session; restoring is proved to
invert the session exactly if every difference can be undone, to leave alone what it
does not report as restored, never to overwrite a conflict without force and to look at
none with it, to conserve directory modes and to be repeatable.

**Around it** (`capture`, `sealing`, `exclusion`, `resolver`, `retention`): a snapshot
accounts for every scanned path, sealing fabricates no deletion, batched exclusion
queries conclude what single ones would, link resolution stays in the mounted snapshot
and is the rewriting of paths one expects, and retention is safe, sufficient and stable.

**External effects and approvals** (`effects`, `supervisor`, `dialogues`): staged HTTP
calls and their compensations are on durable record before they are sent, and what is
recorded of them afterwards is what the transport answered. Each approval request gets
exactly one reply, which the first event that settles it decides.

## Where the code does less than one would expect

Each of these is a lemma about all inputs of its kind or a concrete run.

- A cycle of the extended protocol that writes a table and then truncates it loses the
  written rows: the session commits, and its complete summary does not list the row that
  was inserted (`Exactness.CommitLosesRow`). If nothing was lost before and nothing is
  uncertain, the ledger is the truth after a TRUNCATE if and only if its tables'
  counters were those last sampled (`SharedSession.TruncateExactly`, and on the proxy's
  own fields `Proxying.Proxy.ExecuteRegular`); a complete summary of any run is the
  truth if and only if no surviving TRUNCATE met counters that had moved
  (`Exactness.ReviewedExactlyWhen`, `Exactness.HarmlessExactly`).
- Outside a block the proxy answers COMMIT or ROLLBACK with AND CHAIN with a warning,
  PostgreSQL with an error. In a failed block PostgreSQL answers everything alike, the
  proxy a statement it cannot run with that refusal. A single statement is answered
  alike if and only if it is neither (`Dedicated.SingleExactly`).
- PostgreSQL puts an implicit block around a query string; the proxy only around one of
  ordinary statements. A string is answered alike whatever its queries do if and only if
  no statement of it can undo in PostgreSQL what an earlier one did outside a block
  (`QueryStrings.Uniform`, `QueryStrings.UniformExactly`). `BEGIN; ...; COMMIT` is of
  this kind; `...; BEGIN; ROLLBACK`, `...; ROLLBACK` and a failing statement after an
  ordinary one and before a COMMIT are not (`QueryStrings.BeginAdoptsNothing` is the
  first).
- A cycle of the extended protocol is answered alike inside a block, and outside one as
  long as nothing but ordinary statements and COMMIT follows what it did there, and if
  something is pending only so (`Sessions.CycleExactly`). A query string sent before
  Sync is answered alike if and only if the cycle has not failed, since PostgreSQL skips
  it then, and the string is uniform from where the cycle is (`Sessions.QueryExactly`).
- The right to run a statement outside the transaction is taken without another look at
  who holds it, since the lock was given up for the approval. It is exclusive if and
  only if no other client holds it whenever it is taken (`Escapes.ExclusiveExactly`).
  Two clients that both ask first both get it; when the second ends, a third client
  writes beside the first (`Escapes.TwoInFlight`). Nor is a block looked at that another
  client opened meanwhile (`Escapes.AloneExactly`, `Escapes.BlockBesideFlight`).
- The search for the name of a copy beside a conflict goes on after any answer but
  absence. It ends if and only if one of the first names, one more than there are files,
  is free and short enough to be looked up (`Sidecars.SearchEndsExactly`). With the ids
  sessions have it never ends beside a name of 219 bytes or more, and a restore without
  force that meets such a conflict hangs (`Sidecars.SessionNames`,
  `RestoreEnds.LongNameHangs`); nothing after that happens, the finish step included, so
  directories opened on the way stay open (`RestoreEnds.HangLeaves`).
- A restore succeeds on every path if and only if every difference can be undone: it is
  not behind a directory that cannot be searched; it is not of a special file, nor a new
  mode of the watched root, nor from or to a directory; and a created path lies in a
  directory that can be written or that the command opens for another path restored
  earlier (`SessionRestore.UndoSession`; `SessionRestore.DeletionOpens` is such a case).
  The first change that does not fit is the first that is not restored
  (`RoundTrip.NextExactly`).
- A scan of the whole file system from its root that does not finish lists as deleted
  exactly the baseline's paths that no earlier failure covers and no watched root
  captured, all but the root; from any other root it lists nothing
  (`Sealing.UnfinishedWideScan`).

## Model

| member | source | states |
|---|---|---|
| Accounting.Settles | internal/pgproxy/summary.go:670-695 | adding the counter movement since the last sample makes a ledger that was right up to that movement right again |
| Accounting.Combines | internal/pgproxy/truncate.go:277-304 | filtering the truncated tables out of both samples and adding exact counts afterwards is ordinary movement elsewhere and exact rows there |
| Postgres.OrdinaryPending | internal/pgproxy/summary.go:670-695 | a statement that needs no caveat keeps the gap between ledger and history equal to the unsampled movement |
| Postgres.BalancedPlain | internal/pgproxy/extended.go:290-322 | an unsettled statement in a cycle leaves the books right once its applicable risk is noted |
| Postgres.Backend.RollbackTo | internal/pgproxy/query.go:293-318 | PostgreSQL goes back to the innermost savepoint of the name and keeps it, whatever happens to the counters |
| Postgres.Backend.Release | internal/pgproxy/query.go:320-337 | PostgreSQL forgets the innermost savepoint of the name and those above it and keeps the work; an unknown name aborts |
| SharedSession.TruncateSettles | internal/pgproxy/truncate.go:267-315 | after a counted TRUNCATE the ledger credits the history except the movement never sampled before the reset |
| Proxying.ClientState.NextObjectName | internal/pgproxy/client.go:87-90 | no client uses a private name twice |
| Proxying.ClientState.MarkFailed | internal/pgproxy/query.go:518-520 | an error fails an open block and nothing else |
| Proxying.Proxy.ApplyRowStats | internal/pgproxy/summary.go:670-695 | every counter's movement since the sample is credited unless one of them went back, which is recorded as an error |
| Proxying.Proxy.ReconcileRowChanges | internal/pgproxy/summary.go:379-395 | after a readable sample the ledger has gained exactly the movement, or nothing when the statement is not kept; it gives up only when the counters could not be read |
| Proxying.Proxy.AddUncertainEffect | internal/pgproxy/summary.go:511-521 | a detail is listed once, and empty ones never |
| Proxying.Proxy.RestoreUncertainEffects | internal/pgproxy/summary.go:523-530 | cutting to a saved length never lengthens the list |
| Proxying.Proxy.RestoreBooks | internal/pgproxy/summary.go:711-713 | putting back a saved ledger and length makes the books right for the work they were saved with, although the counters did not go back |
| Proxying.Proxy.ReconcileTruncate | internal/pgproxy/truncate.go:267-315 | ordinary movement on untouched tables plus exact rows on truncated ones although their counters were reset |
| Proxying.Proxy.SummaryRiskApplies | internal/pgproxy/summary.go:491-509 | a risk that needs rows applies only when some command tag counts more than zero |
| Proxying.Proxy.PrepareTruncate | internal/pgproxy/query.go:420-435 | a TRUNCATE is announced and its rows are counted before it runs, if they can be |
| Proxying.Proxy.Account | internal/pgproxy/query.go:504-513 | a kept statement is credited or listed as uncertain, never both and never neither; an undone one leaves no trace |
| Proxying.Proxy.UndoSavepoint | internal/pgproxy/query.go:495-503 | undoing a private savepoint finds it innermost, brings back the work saved with it and cures an aborted transaction |
| Proxying.Proxy.RunProtected | internal/pgproxy/query.go:411-503 | a failed or undone statement changes no staged work and the backend is never left aborted |
| Proxying.Proxy.ExecuteRegular | internal/pgproxy/query.go:411-523 | the books credit exactly the statements that were kept, whether it succeeded, failed or was rolled back afterwards; after a kept TRUNCATE the ledger is the truth if and only if the counters it reset had not moved |
| Proxying.Proxy.BeginClientTransaction | internal/pgproxy/query.go:345-358 | the block's savepoint remembers a ledger and an uncertain length that are right for the work at BEGIN |
| Proxying.Proxy.EndTransaction | internal/pgproxy/query.go:217-273 | COMMIT keeps the block's work, ROLLBACK and a failed COMMIT bring back work and books from BEGIN, AND CHAIN opens the next block |
| Proxying.Proxy.DefineSavepoint | internal/pgproxy/query.go:275-291 | one more client savepoint and one more private one, in step, with right books saved |
| Proxying.Proxy.ClientSavepointIndex | internal/pgproxy/query.go:372-379 | a reused name means the innermost savepoint of that name |
| Proxying.Proxy.RollbackToSavepoint | internal/pgproxy/query.go:299-318 | work, ledger and uncertain list are those saved with the savepoint, which stays, and the block works again |
| Proxying.Proxy.ReleaseClientSavepoint | internal/pgproxy/query.go:324-337 | the savepoint and later ones go on both stacks and their work stays |
| Proxying.Proxy.RequireClientTransaction | internal/pgproxy/query.go:381-393 | outside a block and in a failed block the statement is refused with different codes |
| Proxying.Proxy.ExecuteTransactionControl | internal/pgproxy/query.go:183-343 | transaction control does to the shared view what it would do to a session and never touches another client's block |
| Proxying.Proxy.ExecuteStatement | internal/pgproxy/query.go:133-181 | refusals, failed blocks, leases and kinds of statement are tried in the source's order and the books hold afterwards |
| Proxying.Proxy.ExecuteLeased | internal/pgproxy/query.go:161-176 | under another client's lease reads are rolled back and writes refused |
| Proxying.Proxy.RunStatements | internal/pgproxy/query.go:64-74 | a query stops at its first failing statement |
| Proxying.Proxy.RunBatch | internal/pgproxy/query.go:45-88 | several ordinary statements outside a block all stand or all fall, books included |
| Proxying.Proxy.RunSimpleQuery | internal/pgproxy/query.go:41-92 | replies, view and books of a whole simple query, ending with the client's transaction status |
| Proxying.Proxy.StartExtended | internal/pgproxy/extended.go:46-58 | a cycle starts above everything that is open and remembers right books |
| Proxying.Proxy.SettleCycle | internal/pgproxy/extended.go:538-545 | keeping a cycle turns its noted details into listed ones or its movement into ledger rows |
| Proxying.Proxy.CloseCycle | internal/pgproxy/extended.go:325-352 | a cycle's work and details are kept, or all of it is undone when it failed or read under another client's block |
| Proxying.Proxy.FinishExtendedCycle | internal/pgproxy/extended.go:524-559 | after Sync the lock-free invariant holds again and a failed cycle leaves an open block failed |
| Proxying.Proxy.RotateAround | internal/pgproxy/extended.go:267-281 | transaction control inside a cycle runs on the bare block and the cycle goes on above it |
| Proxying.Proxy.RunLocally | internal/pgproxy/extended.go:267-291 | a refusal or TRUNCATE inside a cycle keeps what the cycle can fall back to |
| Proxying.Proxy.RunInCycle | internal/pgproxy/extended.go:294-322 | an ordinary statement in a cycle is not settled yet, and an error leaves the backend aborted until Sync |
| Proxying.Proxy.ExtendedExecute | internal/pgproxy/extended.go:239-323 | the leases and the failed block are respected inside cycles too |
| Proxying.Proxy.ExtendedLocalError | internal/pgproxy/extended.go:508-511 | an error of the proxy fails the cycle but not yet the block |
| Proxying.Proxy.RelayQuery | internal/pgproxy/query.go:17-92 | a simple query first ends the sender's cycle, and an unparsable one fails an open block |
| Proxying.Proxy.RelaySync | internal/pgproxy/extended.go:513-522 | Sync ends the cycle and reports the status |
| Proxying.Proxy.RequestEscape | internal/pgproxy/query.go:136-179 | a statement that cannot run in a transaction is refused while another client holds a lease |
| Proxying.Proxy.GrantEscape | internal/pgproxy/query.go:525-596 | the right to run outside is taken, whoever holds it, unless the statement was declined, the session state could not be read or a lock conflicts; a refusal fails an open block |
| Proxying.Proxy.EndEscape | internal/pgproxy/query.go:597-668 | the right is given back however the statement ends, refused for uncommitted changes included |
| Escapes.GrantExactly | internal/pgproxy/query.go:566-575 | the right stays exclusive through an event if and only if it is not taken while another client holds it |
| Leases.RequestExactly | internal/pgproxy/query.go:136-179 | a request is accepted if and only if nothing is wrong with it, the client's block has not failed and nobody else has a block or such a statement; the error tells which came first |
| Leases.EndExactly | internal/pgproxy/query.go:597-668 | however a statement outside the transaction ends, the right is given back, the staged work is as it was, and the client is told its status |
| Escapes.AloneExactly | internal/pgproxy/query.go:566-575 | a statement outside and another client's block stay apart if and only if the right is not taken under a lease |
| Escapes.ExclusiveExactly | internal/pgproxy/query.go:525-575 | over any run the right is exclusive throughout if and only if no two takings overlap |
| Escapes.FlightRefuses | internal/pgproxy/query.go:162-167 | while it is exclusive, ordinary statements of other clients are refused |
| Escapes.TwoInFlight | internal/pgproxy/query.go:525-575 | a run, everyone in turn, in which two clients hold it, one ends, and a third writes while the other's statement is in flight |
| Escapes.BlockBesideFlight | internal/pgproxy/query.go:566-575 | a run in which it is taken beside a block opened during the approval |
| Proxying.Proxy.CleanupClient | internal/pgproxy/client.go:119-171 | a disconnected client leaves neither a cycle nor a block nor any of their work |
| Proxying.Proxy.HandleMessage | internal/pgproxy/proxy.go:534-606 | any message does exactly what the shared view says, keeps the lock-free or in-cycle invariant, and leaves savepoints, ledger and uncertain list of another client's open block alone |
| Proxying.ForeignKept | internal/pgproxy/query.go:162-176 | a statement of one client changes nothing while another client's block is open |
| Leases.RefusedInCycle | internal/pgproxy/extended.go:252-260 | from any point of a cycle that has not failed, a statement that does not only read beside another client's block, or any ordinary one beside its statement outside the transaction, is answered with exactly the lease error and fails the cycle |
| Leases.RefusedUntilSync | internal/pgproxy/extended.go:252-265 | over the rest of such a cycle the client hears that error once, nothing more until Sync, and the work is what it was before the cycle |
| Leases.LeasedCycle | internal/pgproxy/extended.go:252-322 | any cycle beside another client's block or statement outside the transaction: which replies its reads, refusals and transaction control get, up to the first error, and that the work is as before it |
| Leases.WholeLeasedCycle | internal/pgproxy/extended.go:252-322 | the same from a cycle's first message to its Sync |
| Leases.RefusedInQuery | internal/pgproxy/query.go:161-176 | in a query string the first statement that is barred is refused, what came before it keeps its replies, and nothing behind it is run |
| Leases.LeasedQuery | internal/pgproxy/query.go:161-176 | any query string beside another client's block: every statement is answered from the same work up to the first error, and everything is left as it was |
| Leases.CycleKeeps | internal/pgproxy/extended.go:252-322 | from any point of a cycle: every ordinary statement is answered as on what those before it left; at Sync the work holds the data and the counted rows of all of them if none failed, and else is what it was before the cycle |
| Leases.WholeCycle | internal/pgproxy/extended.go:252-322 | the same from a cycle's first message to its Sync |
| Leases.QueryKeeps | internal/pgproxy/query.go:17-92 | a string of ordinary statements that all succeed is part of the work with what was answered; one that fails outside a block leaves nothing |
| Leases.FlightIrrelevant | internal/pgproxy/query.go:161-176 | in a block of its own a client's transaction control does not depend on another client's statement outside the transaction |
| Leases.UnparsedExactly | internal/pgproxy/query.go:17-92 | what cannot be parsed is answered with its error, fails the sender's block and changes nothing else |
| Leases.BadExactly | internal/pgproxy/extended.go:508-511 | a message of a cycle that cannot be carried out is answered with its error and fails the cycle, and only that |
| Leases.LeavesNothing | internal/pgproxy/client.go:119-171 | a client that leaves is sent nothing, and takes the work of its cycle and of its block with it |
| Interleaving.LeaseIsolates | internal/pgproxy/query.go:402-409 | while a block is open, no number of messages of other clients changes the block or the staged work |
| Interleaving.HandleMine | internal/pgproxy/query.go:205-209 | no message opens, closes or changes a block of another client, so no second block opens |
| Interleaving.Dispatch | internal/pgproxy/client.go:92-117 | one handled message keeps the coupling invariant of the proxy with every client, not only the sender |
| Interleaving.Serve | internal/pgproxy/proxy.go:534-606 | for any interleaving the proxy follows the shared view and every client is sent exactly the replies to its own messages |
| Finalizing.Session.StopClients | internal/pgproxy/proxy.go:756-771 | after all clients are gone the work is that of before the open block or cycle |
| Finalizing.Session.Seal | internal/pgproxy/proxy.go:400-422 | sealing happens once, after every client is gone, and what it lists stays true |
| Finalizing.Session.FreezeChangeSummary | internal/pgproxy/summary.go:288-311 | a sealed summary is complete if and only if the catalog was read, the ledger has no error and no surviving effect is uncertain |
| Finalizing.Session.Finalize | internal/pgproxy/proxy.go:425-485 | one decision only; COMMIT happens if and only if it was asked for and the summary is complete, and then commits exactly the summarised work |
| Finalizing.Session.Close | internal/pgproxy/proxy.go:496-507 | an undecided session is rolled back and a decided one left alone |
| SharedSession.TruncateExactly | internal/pgproxy/truncate.go:277-304 | after a TRUNCATE of a work without earlier losses the ledger holds the true rows if and only if the counters of its tables equal their last sample |
| Exactness.HarmlessExactly | internal/pgproxy/truncate.go:267-315 | with right books, a TRUNCATE loses nothing if and only if its tables' counters equal their last sample |
| Exactness.CalmRunsAreExact | internal/pgproxy/extended.go:267-274 | in every run without a cycle that truncates what it wrote, the ledger's credit is the true number of surviving row changes |
| Exactness.ReviewedIsCommitted | internal/pgproxy/proxy.go:463-476 | in such runs a complete summary lists exactly the row changes of the work COMMIT keeps |
| Exactness.ReviewedExactlyWhen | internal/pgproxy/proxy.go:463-476 | in every run a complete summary lists the true rows of what COMMIT keeps if and only if no surviving TRUNCATE met unsampled movement |
| Exactness.WriteThenTruncateLoses | internal/pgproxy/extended.go:267-274 | three messages of one cycle after which nothing is uncertain and an inserted row is credited nowhere |
| Exactness.CommitLosesRow | internal/pgproxy/extended.go:267-274 | that run through the proxy to its end: whenever the counters can be read COMMIT is accepted, and the committed row is not in the complete summary |
| Dedicated.StepSimulates | internal/pgproxy/query.go:133-343 | one statement gets the tags, errors and data a dedicated PostgreSQL session would give, for reused savepoint names, failed blocks and AND CHAIN too |
| Dedicated.SingleExactly | internal/pgproxy/query.go:133-255 | a lone statement is answered alike if and only if it is neither AND CHAIN outside a block nor one the proxy refuses in a failed block |
| QueryStrings.QuerySimulates | internal/pgproxy/query.go:41-92 | a uniform query string, such as BEGIN first and COMMIT last, gets the replies, status and data of a dedicated session |
| QueryStrings.UniformExactly | internal/pgproxy/query.go:41-92 | from any state a string is answered alike whatever its queries do if and only if it is uniform |
| QueryStrings.PendingExactly | internal/pgproxy/query.go:17-92 | after a cycle's pending work a string is answered alike whatever its queries do if and only if it flows on from there |
| QueryStrings.BeginAdoptsNothing | internal/pgproxy/query.go:45-74 | for all data, a string that begins a block after an ordinary statement and rolls it back leaves PostgreSQL and the proxy with different data |
| Sessions.ExecuteCycles | internal/pgproxy/extended.go:239-323 | a statement of the client's own cycle is answered alike, skipped ones after an error too |
| Sessions.CycleExactly | internal/pgproxy/extended.go:239-323 | with something pending, a statement of a cycle is answered alike if and only if it is one of these |
| Sessions.QueryExactly | internal/pgproxy/query.go:17-92 | from any point of a cycle a query string is answered alike whatever its queries do if and only if it fits |
| Sessions.BadQueryExactly | internal/pgproxy/query.go:32-40 | an unparsable query in a cycle is answered alike if and only if nothing is pending and nothing is skipped |
| Sessions.OthersMessage | internal/pgproxy/query.go:402-409 | other clients' messages, cycles included, leave a client's view of its block as it was |
| Sessions.Indistinguishable | internal/pgproxy/query.go:133-343 | over any interleaved run a client hears, to its queries and its own cycles, exactly what a session of its own would answer |
| TruncateCounting.ClosureStable | internal/pgproxy/truncate.go:78-100 | the relation set of a TRUNCATE stays the same whatever other sessions do, once all of it is locked |
| TruncateCounting.Catalog.TruncateClosure | internal/pgproxy/truncate.go:191-224 | following foreign keys finds the least set that holds the targets and everything referring into it |
| TruncateCounting.Catalog.LockClosure | internal/pgproxy/truncate.go:78-100 | success means the last look found the whole relation set locked; giving up means a lock was denied or 64 looks each found something new |
| TruncateCounting.Catalog.CaptureTruncateEffect | internal/pgproxy/truncate.go:52-160 | counts are taken only of a locked, stable and countable relation set, and given up only for a lock denied, a set that kept growing or a table that cannot be counted |
| TruncateCounting.Catalog.CountThenTruncate | internal/pgproxy/query.go:420-441 | with other sessions active in between, a TRUNCATE removes exactly the rows counted before it |
| Sidecars.AvailableSidecar | internal/localrollback/restore.go:1719-1734 | any number of rounds of the loop find the first name beside the path that a look finds absent, or none of them does |
| Sidecars.SearchEndsExactly | internal/localrollback/restore.go:1726-1733 | the loop ends if and only if one of its first names, one more than there are files, can be looked up and is free |
| Sidecars.LongNamesHang | internal/localrollback/restore.go:1726-1733 | it never ends if the first name is too long, or taken and the second too long; it ends if there is room for all of these names |
| Sidecars.SessionNames | internal/localrollback/restore.go:1719-1734 | with a session's id it never ends beside a name of 219 bytes or more |
| RestoreEnds.ComesBackExactly | internal/localrollback/restore.go:1216-1238 | a restore comes back if and only if no change meets, at its turn, a conflict without a name for its copy; with force it always does |
| RestoreEnds.LongNameHangs | internal/localrollback/restore.go:1216-1238 | a changed file with such a name makes a whole restore without force hang, unless the way to it is closed |
| RestoreEnds.ShortNamesComeBack | internal/localrollback/restore.go:1719-1734 | a restore comes back if every name leaves room for a number as large as the files at the start and those it can add |
| RestoreEnds.HangLeaves | internal/localrollback/restore.go:1216-1238 | a restore that hangs has changed nothing but what it reported and copies, except that directories it opened stay open and those it made keep the private mode |
| Sidecars.FreeFirst | internal/localrollback/restore.go:1719-1734 | every name with a smaller number than the one found was taken |
| Sidecars.CandidateDiffers | internal/localrollback/restore.go:1725-1729 | different numbers make different names, so finitely many files cannot block the search |
| Sidecars.RecognisedExactly | internal/localrollback/restore.go:286-311 | for any name and id, a name so made is recognised as a copy if and only if what follows the last marker in its short id is not empty and lacks the snapshot word |
| Sidecars.SidecarsRecognised | internal/audit/audit.go:140-145 | the ids sessions are given meet that, so every copy the program makes is recognised later |
| RestoreOrder.OrderRestoreChanges | internal/localrollback/restore.go:990-1005 | a permutation: files before directories, deeper before shallower, then by path |
| RestoreOrder.OrderedChildrenFirst | internal/localrollback/restore.go:990-1013 | in that order nothing is restored before what lies below it |
| Restorer.RestoreExecution.EnsureParentDirectories | internal/localrollback/restore.go:1426-1495 | the loop makes or widens the parents from the root down and stops at the first it cannot use |
| Restorer.RestoreExecution.RestoreSnapshotObject | internal/localrollback/restore.go:1326-1358 | writes the baseline version back, recording created and finished directories |
| Restorer.RestoreExecution.RestoreOneChange | internal/localrollback/restore.go:1186-1263 | the outcome and every file and record it leaves, including conflicts and copies beside them |
| Restorer.RestoreExecution.FinishRestoreExecution | internal/localrollback/restore.go:1277-1309 | each directory still in hand once, deepest first, gets its recorded mode or a reported failure |
| Restorer.RestoreExecution.AttachFailure | internal/localrollback/restore.go:1311-1324 | a failure is attached to the first result of its path, or added |
| Restorer.RestoreExecution.RestoreChanges | internal/localrollback/restore.go:461-484 | a whole restore is the ordered changes one after the other and then the directories in hand, or hangs at the first change whose copy gets no name |
| RestoreSteps.EnsureKeeps | internal/localrollback/restore.go:1426-1495 | making parents never fails below a reachable path that was there before, and changes no path's final look |
| RestoreSteps.StepReverts | internal/localrollback/restore.go:1186-1263 | restoring the next change in order, if it fits its turn, succeeds, reverts its path, keeps every other path's final look and holds open the directories above what it wrote |
| RestoreSteps.StepFails | internal/localrollback/restore.go:1186-1263 | a change that does not fit its turn is not restored |
| RoundTrip.NextExactly | internal/localrollback/restore.go:461-484 | in a whole run, as long as everything fitted, the next change succeeds if and only if it fits |
| RoundTrip.RestoreReverts | internal/localrollback/restore.go:990-1013 | all results are successes if and only if every change fits its turn; then every selected path and every missing directory above one is as before the session, mode included, and all else exactly as the session left it |
| RoundTrip.RestoreInverts | internal/localrollback/restore.go:1186-1263 | a complete list whose changes fit, restored, gives the files as they were before the session |
| ForcedRestore.EnsureExactly | internal/localrollback/restore.go:1459-1480 | the directories above a path can be made usable if and only if each is a directory or is missing and was recorded as one |
| ForcedRestore.ForcedExactly | internal/localrollback/restore.go:1220-1257 | with force a change is undone at its turn if and only if the way to its path is open, its missing directories were recorded, and nothing of another sort is in its place; what the session left plays no part, and nothing is copied aside |
| ForcedRestore.ForcedRun | internal/localrollback/restore.go:1186-1263 | for any files, conflicts included, every change of a forced restore succeeds if and only if it can be undone at its turn; its path ends as before the session, and the path of any other ends as it was or is a directory that had to be made |
| ForcedRestore.ConflictsIgnored | internal/localrollback/restore.go:1216-1224 | a forced restore does the same whatever the session is said to have left |
| RestoreConflicts.ForceOnlyForConflicts | internal/localrollback/restore.go:1216-1224 | where the session's version is still there a restore does the same with and without force |
| RestoreConflicts.ConflictExactly | internal/localrollback/restore.go:1220-1238 | without force, a path that holds neither what the session left nor what was there before is left alone; a copy of the latter is put where nothing was if and only if there is one that can be written there |
| RestoreConflicts.CopiesStay | internal/localrollback/restore.go:1226-1235 | a copy reported beside a conflict is there when the command ends and holds what the path held before the session |
| RestoreConflicts.ForeignSurvives | internal/localrollback/restore.go:1216-1238 | such a path ends the whole run exactly as it was and is reported as refused, unless it cannot be looked at or its copy finds no name |
| RestoreReach.FinishNeverFails | internal/localrollback/restore.go:1277-1309 | for any files, conflicts included, the finish step reaches every directory in hand and adds no failure, when the baseline is a tree whose entries could be reached |
| RestoreReach.ReachedExactly | internal/localrollback/restore.go:1277-1309 | from a baseline that records every entry's directory it always does so if and only if no unsearchable directory but the root is recorded above a directory with something in it |
| RestoreReach.ScannedOpen | internal/localrollback/localrollback.go:1616-1670 | what a scan records, each entry in a directory that could be searched, meets that |
| SessionRestore.ObservedSound | internal/localrollback/localrollback.go:1725-1752 | the snapshot of a tree and the changes a diff lists from it meet that, whatever the files are when the restore begins |
| RestoreReach.UntouchedUnlessRestored | internal/localrollback/restore.go:1186-1309 | for any files, changes and conflicts, a path not reported restored ends exactly as it was, or is a needed directory with its baseline mode |
| RestoreReach.NeverOverwritten | internal/localrollback/restore.go:1216-1238 | without force, an entry that is neither what the session left nor what was there before it survives the whole run unchanged |
| RestoreFrame.CopyFresh | internal/localrollback/restore.go:1226-1235 | a copy beside a conflict is written only where nothing was |
| RestoreReach.RestoreTwice | internal/localrollback/restore.go:1207-1215 | whatever one restore put right the next reports as already restored, unless it cannot be looked at |
| RestoreReach.FirstRestoreRights | internal/localrollback/restore.go:1565-1602 | what is reported restored or already restored matches the baseline when the command ends |
| RestoreReach.PermissionsConserved | internal/localrollback/restore.go:1277-1309 | everything ends with its own, its restored or its baseline mode |
| Diffing.Diff | internal/localrollback/localrollback.go:1725-1752 | exactly the differing, not excluded paths are listed, each once, with both entries |
| SessionRestore.NothingMissed | internal/localrollback/localrollback.go:1758-1771 | suppressing a change because the bytes are equal hides no real difference |
| SessionRestore.HeldExactly | internal/localrollback/restore.go:990-1005 | what the command has opened before a change's turn can be told from the two trees and the restore order |
| SessionRestore.TurnsExactly | internal/localrollback/restore.go:990-1013 | every listed change fits its turn if and only if every difference between the trees can be undone |
| SessionRestore.DeletionOpens | internal/localrollback/restore.go:1459-1480 | a file created in a directory that cannot be written is removed when another one deleted from it is restored first, and is not without that one |
| SessionRestore.UndoSession | internal/localrollback/restore.go:461-484 | diffing two complete scans and restoring the list comes back with success on every path if and only if every difference can be undone, and then brings back the files of before the session |
| Capture.PrefixFirst | internal/localrollback/localrollback.go:1416-1424 | sorting paths as texts visits what lies above a path before it |
| Capture.OrderedPaths | internal/localrollback/localrollback.go:1404-1420 | every scanned path is visited once, in the order of the texts |
| Capture.ReconcileCapture | internal/localrollback/localrollback.go:1399-1456 | every scanned path is captured or covered by a failure, never both; captured ones were stable; no failure is invented |
| Capture.MergeFailures | internal/localrollback/localrollback.go:1967-1987 | the same failing paths, each once, with the category all reports of it agree on or else none, and the error of the last |
| Sealing.CaptureSession.ScanRoots | internal/localrollback/localrollback.go:673-734 | only finished scans enter the comparison and every failure hides its own root's paths |
| Sealing.CameOrWentDiffed | internal/localrollback/localrollback.go:722-735 | what came or went in a finished scan, and is hidden by no failure, is among the differences |
| Sealing.CaptureSession.WideChanges | internal/localrollback/localrollback.go:749-773 | exactly the differences of the wide comparison, in which failures hide what they cover and an unfinished scan what lies below its root |
| Sealing.CaptureSession.ClonePath | internal/localrollback/localrollback.go:882-918 | the innermost watched root that holds a wide path, by its own name or its target's, names it, and only a root that captured it keeps it from being listed |
| Sealing.CapturedExactly | internal/localrollback/localrollback.go:678-720 | a wide path counts as captured if and only if the innermost root that holds it was there, and neither its failures and gaps then and now nor a moved root or broken scan cover the path |
| Sealing.OwnDifference | internal/localrollback/localrollback.go:1773-1800 | a root that was scanned again and captured a path is believed about it: where its two scans differ that is listed, whatever failures elsewhere cover the path |
| Sealing.MergedOwn | internal/localrollback/localrollback.go:722-734 | where no root lies in another, a path is compared as its own root's baseline and finished scan have it |
| Sealing.CaptureSession.SealContext | internal/localrollback/localrollback.go:651-804 | for every pattern of failed, partial or cancelled scans, the list has exactly the differences of the finished scans of the watched roots, of what could not be captured in them, and of the wider tree outside what a root captured; a listed deletion was in a baseline that was scanned again to the end, is not there, and lies under no failure of that scan, a wide one too unless an unfinished scan was of the whole file system; no other finished scan of a root contradicts it, unless the root that holds a wide path could not capture it there; and the record is complete if and only if nothing failed or was cancelled |
| Sealing.UnfinishedWideScan | internal/localrollback/localrollback.go:749-804 | in the sealed list an unfinished wide scan adds nothing, or, from the file system's root, exactly the baseline paths no failure covers and no watched root captured, as deleted |
| Exclusion.VerdictTrue | internal/localrollback/localrollback.go:1126-1145 | a verdict, own or inherited, is what asking about the path itself would give |
| Exclusion.InheritedFinds | internal/localrollback/localrollback.go:1159-1170 | the walk upward finds an excluded ancestor whenever there is one |
| Exclusion.Classifier.NextLayer | internal/localrollback/localrollback.go:954-982 | what is decided from above is dropped and exactly the shallowest rest is asked about |
| Exclusion.Classifier.CheckBatch | internal/localrollback/localrollback.go:991-1029 | a batch that fails or miscounts is asked path by path: no answer is given up but for a path asked about alone, or after a cancellation; of several paths none is asked that the output cannot show, nor more than a batch holds |
| Exclusion.Classifier.Classify | internal/localrollback/localrollback.go:953-1032 | the rounds end with every path decided and nothing asked below an excluded path |
| Exclusion.Classifier.ClassifyWideChanges | internal/localrollback/localrollback.go:927-1037 | batched verdicts agree with the one-path check, an unknown one is of a path asked about alone in vain or after a cancellation, nothing below an excluded path is asked about, and no query is left for the end |
| Resolver.FollowInPlace | internal/localrollback/restore.go:928-943 | replacing a link by the parts of its target is walking the link to its end first |
| Resolver.Reroot | internal/localrollback/restore.go:858-879 | an absolute target is cleaned and taken from the mounted root, without components that climb |
| Resolver.CleanLaws | internal/localrollback/restore.go:858-879 | cleaning a path keeps names, drops empty parts and dots, lets two dots take the name before along, and ignores them at the root; these laws determine it |
| Resolver.ResolvesExactly | internal/localrollback/restore.go:881-951 | a path resolves to a result if and only if rewriting the whole path step by step, with at most 255 links, stops there: dots go away, two dots take the real directory before along and escape at the root, and a link is replaced by its text relative to its directory, or by the cleaned absolute path from the mount point or the root |
| Resolver.ResolveMountedSnapshotPath | internal/localrollback/restore.go:881-951 | the loop terminates on every tree with the one result the path can be rewritten to, and equals the recursive meaning of the path |
| Resolver.ResolvedInside | internal/localrollback/restore.go:944-950 | the result has proper names only, everything above it exists and is no link |
| Retention.Gather | internal/localrollback/localrollback.go:2122-2182 | one item per id, a readable manifest believed over the audit record |
| Retention.Measure | internal/localrollback/localrollback.go:2195-2226 | usage and bytes under enforcement as a recount finds them |
| Retention.NewestAudited | internal/localrollback/localrollback.go:2235-2240 | the newest session with an audit record, if any |
| Retention.PlanRetention | internal/localrollback/localrollback.go:2195-2268 | the running totals equal a recount over what stays |
| Retention.PlanStored | internal/localrollback/localrollback.go:2105-2268 | plans over every stored session once, oldest first; invalid ids and negative caps are refused |
| Retention.StoredExactly | internal/localrollback/localrollback.go:2122-2182 | what is known of a session, field by field, from its audit record and its snapshot directory with a readable or damaged manifest |
| Retention.GoesExactly | internal/localrollback/localrollback.go:2233-2267 | a session goes if and only if it is neither the newest nor the newest audited and is too old, or is measured while the measured bytes that stay before it with its own and all younger ones exceed the cap |
| Retention.RemovalsExactly | internal/localrollback/localrollback.go:2241-2267 | the plan lists exactly the sessions that go, oldest first |
| Retention.Sufficient | internal/localrollback/localrollback.go:2241-2267 | afterwards exact bytes are within the cap or only protected exact snapshots remain |
| Retention.OldestFirst | internal/localrollback/localrollback.go:2241-2267 | a removal for the cap happened while the cap was exceeded and after every older candidate |
| Retention.NewestStay | internal/localrollback/localrollback.go:2234-2240 | the newest session and the newest audited one stay with their snapshots |
| Retention.ReplanRemovesNothing | internal/localrollback/localrollback.go:2241-2267 | planning again over what the removals left removes nothing |
| Effects.StagingProxy.ReplayCall | internal/httpsproxy/proxy.go:372-424 | a call is announced durably before it is sent; it is not sent only if it cannot be built or the announcement was lost, its state says what was answered, and no error means that the origin took it and that is on record |
| Effects.StagingProxy.SendCall | internal/httpsproxy/proxy.go:450-496 | the state to record is sent if and only if the transport answered with a status from 200 to 299, unknown if and only if it answered otherwise, and not sent if and only if it was not asked, which is so exactly when the call cannot be built |
| Effects.StagingProxy.RecordOutcome | internal/httpsproxy/proxy.go:391-411 | a compensation waits for a staged call if and only if one was declared and the origin took the call |
| Effects.StagingProxy.ExecuteUndo | internal/httpsproxy/proxy.go:1460-1490 | a compensation succeeded if and only if it was answered with a status from 200 to 299, read to the end, and not taken back in the body |
| Effects.StagingProxy.RunUndos | internal/httpsproxy/proxy.go:1408-1458 | only waiting compensations that are runnable and whose request can be built are handed over, all of them if every write succeeds; what was attempted is on record as succeeded if and only if its answer was a success, else as failed; no error means all were |
| Effects.StagingProxy.Persist | internal/httpsproxy/proxy.go:498-503 | a successful write makes the durable record the current one; a failed one may or may not |
| Effects.StagingProxy.RunUndo | internal/httpsproxy/proxy.go:1416-1456 | a compensation is announced durably before it is attempted, one whose request cannot be built fails without being handed over, and no error means that the origin made it good and that is on record |
| Effects.StagingProxy.Finalize | internal/httpsproxy/proxy.go:340-439 | at every moment what was handed over is on record, nothing is handed over twice or out of order, and sends and compensations exclude each other; in the end every state is what the recorded answer makes it, and a commit reports no error if and only if every origin took its call and every record was written, a discard if and only if every compensation was made good and every record written |
| Effects.StagingProxy.Stage | internal/httpsproxy/proxy.go:895-927 | a staged call is recorded as pending and kept to be sent on commit, with no compensation waiting for it |
| Effects.StagingProxy.RecordRequestWithUndo | internal/httpsproxy/proxy.go:1353-1372 | each request has at most one compensation waiting |
| Supervisor.OneReplyEach | internal/runner/runner.go:104-221 | for every order of events at most one request waits, every other request taken has exactly one reply, a decision answers only its own request, and none waits after the child's exit |
| Supervisor.SignalKeeps | internal/runner/runner.go:164-189 | an interrupted request is answered once and its dialogue's number can answer nobody later |
| Supervisor.AnswerKeeps | internal/runner/runner.go:209-215 | the current dialogue's answer is given once, and a stale one leaves every reply as it was |
| Supervisor.TakeKeeps | internal/runner/runner.go:194-208 | a request is taken only while none waits, under a number no dialogue has, and every earlier one keeps its one reply |
| Dialogues.SettledExactly | internal/runner/runner.go:104-221 | over any events, without the loop's variables: the one reply to a request is its own decision if and only if its own dialogue completed while it waited, before any signal or exit; that it was interrupted if and only if a signal came first; that the child exited if and only if that came first |
| Dialogues.ResultExactly | internal/runner/runner.go:109-170 | the loop returns at the first exit with its code, as interrupted if and only if the child died of a signal, a signal was heeded, or the child was stopped while nobody waited |
| Supervisor.Run.Supervise | internal/runner/runner.go:104-221 | when the loop has returned every request taken has exactly one reply, its own |

## Left out

- Statements are given with their kind, whether they only read, and their risk: parsing
  and classifying SQL is not modelled. A statement without an applicable risk is assumed
  to change exactly the rows its counters show, and a TRUNCATE exactly the rows of its tables.
- I/O failures that end the session (lost connections, unexpected answers to the proxy's
  own commands, a transaction lost on the backend): after them nothing is committed.
- COPY, prepared statements and portals as named objects, row-limited Execute, cancel
  keys, parameter status, sequence counters and their suppressions.
- Batches that reach a statement run outside the transaction: the source gives up the
  session lock there with the batch's savepoint open. Such statements are modelled as
  queries of their own; an extended-protocol statement that PostgreSQL itself reports as
  not allowed in a transaction, and what the approved statement does, are not modelled.
- Sessions.Indistinguishable: what the proxy refuses counts as a statement that fails, because
  PostgreSQL would run it.
- TruncateCounting.Catalog.TruncateClosure: partition descendants of the targets, and
  relations that only pass a constraint on to their partitions, are not part of the model's
  closure.
- Postgres.Backend.CountTruncate: counting is one step inside the proxy's model; how the
  relation set becomes stable while other sessions are active is `TruncateCounting`.
- Table names, 64-bit overflow of row counts, dropped tables' counters, and the catalog
  difference (an input of sealing).
- Names of private savepoints are triples, not texts; PostgreSQL's truncation of long
  identifiers is not modelled.
- The order of `Finalizing.Session.StopClients` is by client number, the cycle's owner
  first; in the source clients leave in any order.
- Hard links (a restore of one name would change the other's link count), symbolic links
  above a restored path, ownership, and permission checks beyond the owner's bits.
- Restoring from volume snapshots, agent-state roots, several roots in one session, and
  the recorded-baseline commands; a conflicting change of the watched root writes its copy
  outside the root and is not modelled.
- SessionRestore.UndoSession: assumes that a rewritten file gets new times and that
  symbolic links have one mode, as on Linux.
- Diffing.Diff: the order of the list is not modelled, since restoring sorts it again.
- Sealing.CaptureSession.SealContext: which volume snapshot holds a change, exclusion
  verdicts, storage measurements and writing the manifest are left out; which scanned
  entries are coverage gaps is an input.
- Sidecars.AvailableSidecar: a name is too long above 255 bytes; the limit on whole paths is not
  modelled.
- Exclusion.Classifier.ClassifyWideChanges: assumes that exclusion is inherited downward;
  the choice of the path asked for a deleted entry is left out.
- Resolver.ResolveMountedSnapshotPath: the path to resolve is given by its components
  below the mounted root.
- Retention.PlanStored: locks, cancellation and warnings are left out.
- Effects.StagingProxy.Finalize: assumes that a summary store is installed; request
  bodies, headers and response parsing are left out.
- Supervisor.Run.Supervise: terminal control, the signals sent to the child, error texts and
  the timer's length are left out.
