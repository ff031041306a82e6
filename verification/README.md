# Verified model of the middleman's query path

The middleman receives queries from devices, collects them into batches, inserts them into the
database and sends each client its reply. This project models that path in Dafny and proves what it
promises: which statements end up committed, which reply each query gets, and that no batch or request
is lost or answered twice on the way.

Each module follows one part of the program:

| module | part of the program |
|---|---|
| `Workload`, `Database` | the statements of a database job in the order of its sections; a committed log, an open transaction, and an adversary that decides which statements and commits fail |
| `RetryLoop` | the transactional retry loop as its comments intend it |
| `LiteralLoop`, `LiteralFrames`, `LiteralEnds`, `LiteralFails`, `LiteralExact`, `LiteralNumbers` | the same loop as it is written, exactly when it ends, inputs on which it goes wrong, and exactly when it is right |
| `LiteralReports`, `LiteralMisreports`, `LiteralReplies` | what that loop reports to the clients, and exactly when all of it is true |
| `Messages`, `WriteSplit`, `Filing`, `Arrays`, `JsonText` | splitting interleaved queries into one JSON array per table or multicast queue, which letter leads where, and reading such arrays back |
| `ResultDealing`, `RowPrinting`, `Dispatch` | dealing numbers and errors back to the queries, printing result rows, and whole batches answered as reads or as writes |
| `SplitMerge`, `Acknowledgement` | split, insert and deal together, first for any outcome of the inserts, then through the retry loop |
| `ReadRetry`, `ReadAcknowledgement` | pipelined read queries, as written and as meant, and the replies to them |
| `ConfigCache` | loading the device configurations of a base and a run-mode configuration into the cache, and looking them up |
| `Receiver`, `SwapBuffer`, `Handoff`, `HandoffProgress`, `WorkerCap` | receiving multipart messages, multicast buffers, the queues between the threads, the cap on logging and monitoring jobs |
| `Versions`, `Alarms` | the triggers that number and prune rows and that count repeated alarms |

## Where the code and its comments differ

The retry loop states its intent at `UserTools/DatabaseWorkers/DatabaseWorkers.cpp:604-616` and
`:966-971`: loop until everything that can be submitted is committed, skipping what failed before, and
re-run only what an error has undone. `RetryLoop` is a loop with that meaning: every pass has a new
transaction, the checkpoint names the statement of the last error, a pass after an error re-runs
everything before it, and numbers collected in an aborted transaction are dropped. `LiteralLoop` is the
loop as written:

- only the handler of a failing statement opens a new transaction (`:652-653` and its like); nothing does
  after `commitit` (`:939-971`). A pass that follows another one therefore goes on with a transaction that
  has been committed, or whose commit has failed. What the client library makes of a statement sent on
  such a transaction is left to the adversary: it may fail, which opens a new transaction, or be executed
  outside any transaction, with effect at once. Committing a committed transaction again does nothing;
  committing one whose commit has failed fails again;
- the test for a section's endpoint stands before the section (`:659`, `:691`, `:719`, `:746`, `:773`);
- the inner loop over generic queries starts at the checkpoint index in every batch (`:633`), and `clear()`
  does not reset that index (`DatabaseWorkers.h:59-75`);
- the checkpoint moves only while a pass has seen no error, the indices follow the last error
  (`:658-661`, `:683`);
- numbers of an aborted transaction are kept (`:813-816`).

`LiteralEnds.FailedCommitHangs` proves that one failed commit is enough to keep the loop going for ever: for
every job, even one without any write statement, if the commit of the first pass fails and nothing else
ever does, then every later pass tries to commit the same dead transaction. `LiteralEnds.NeverEndsIff`
gives the exact condition for any pattern of failures. So there is no job on which the loop is right under
every pattern (`LiteralExact.NeverRightAlways`). As long as commits succeed it always ends, and
`LiteralExact.LiteralExactlyOnceIff` proves that it commits every statement exactly once under every
pattern of failing statements if and only if the job has at most two statements, in different sections,
with further restrictions when one of them is a generic query. `LiteralNumbers.NumbersKeptIff` proves that
the numbers kept for inserts are those of their committed executions if and only if every insert that
returns numbers is the last write statement of the job, so that there is at most one: in every other job
such an insert can be lost, neither committed nor flagged, with its numbers kept. Inserts of alarms return
no numbers; a lost one leaves no error either (`:786-800`). In both cases the clients are told that it was
stored (`LiteralReplies.LostYetAcknowledged`). `LiteralReplies.LiteralAcknowledgedIff` gives the exact condition,
again for commits that succeed: every client of clean batches is told the truth, whatever statements fail,
if and only if the job is trusty (`LiteralReports.Trusty`): without generic queries and inserts nobody gets
a reply; else

- it has at most one generic query, and with it no checkpoint index left over from an earlier job;
- it has at most one insert;
- its multicast statements, of which there may be any number, lie in one section;
- if it has both a generic query and an insert, it has no multicast statement, and the checkpoint left by
  an earlier job does not make the loop send the insert twice.

In every other job some client can be told of a success although its statement is lost, or committed twice.

Likewise the read pipeline skips a retrieval by looking at `queries[i]` where the query in hand is
`queries[i+last_i]` (`:546-548`). `ReadRetry` has both tests; as meant, every query is answered; as
written, exactly the batches with at most one query for the database are safe.

## Model

| member | source | states |
|---|---|---|
| Workload.UnitsExact | UserTools/DatabaseWorkers/DatabaseWorkers.cpp:627-935 | the order in which a pass sends statements lists every statement of the job once and nothing else |
| Workload.UnitsSpelled | UserTools/DatabaseWorkers/DatabaseWorkers.cpp:627-935 | which statements a job has and their order: generic queries, logging, monitoring, root plots, plotly plots, inserts; batch by batch, and alarms, device, base, run-mode configurations, calibrations, root plots, plotly plots within a batch |
| RetryLoop.WalkFlags | UserTools/DatabaseWorkers/DatabaseWorkers.cpp:636-655 | flags only grow, by statements of the stretch; an error always flags a statement that was not flagged |
| RetryLoop.PassProgress | UserTools/DatabaseWorkers/DatabaseWorkers.cpp:963-973 | a pass that loops although its commit succeeded leaves strictly fewer unflagged statements, so the loop ends |
| RetryLoop.PassSettled | UserTools/DatabaseWorkers/DatabaseWorkers.cpp:937-971 | after every pass the log holds each unflagged statement from the endpoint on once and nothing before it; a failed commit changes neither log nor endpoint; without an error nothing is outstanding |
| RetryLoop.ExactlyOnceCommit | UserTools/DatabaseWorkers/DatabaseWorkers.cpp:616-973 | for every job and every pattern of failing statements and commits, each unflagged statement is committed exactly once, each flagged one never; only statements that fail in some pass are flagged, and what is committed was executed without a failure in a pass whose commit succeeded |
| RetryLoop.NeverFailing | UserTools/DatabaseWorkers/DatabaseWorkers.cpp:636-655 | a statement that never fails is committed once, whatever else fails |
| RetryLoop.QuietRun | UserTools/DatabaseWorkers/DatabaseWorkers.cpp:616-973 | if nothing fails in the first pass it commits every statement, in order, and nothing is flagged |
| RetryLoop.NumbersOfCommittingPass | UserTools/DatabaseWorkers/DatabaseWorkers.cpp:803-933 | numbers and results kept for a committed statement are those of its committing pass; uncommitted statements have no numbers |
| RetryLoop.RetryingJob.Execute | UserTools/DatabaseWorkers/DatabaseWorkers.cpp:636-655 | a flagged statement is skipped, a successful one joins the transaction, a failing one, and no other, is flagged and empties the transaction |
| RetryLoop.RetryingJob.TryCommit | UserTools/DatabaseWorkers/DatabaseWorkers.cpp:939-961 | a commit appends the transaction to the log and moves the endpoint to the checkpoint; a failed commit does neither |
| RetryLoop.RetryingJob.RunPass | UserTools/DatabaseWorkers/DatabaseWorkers.cpp:618-961 | one pass up to the endpoint, and its commit, computes the specified one |
| RetryLoop.RetryingJob.DatabaseJob | UserTools/DatabaseWorkers/DatabaseWorkers.cpp:604-973 | the loop computes the specified run, ends, and leaves every statement committed once, or flagged because it failed |
| LiteralLoop.DatabaseJobStruct.Clear | UserTools/DatabaseWorkers/DatabaseWorkers.h:59-75 | what a recycled job keeps: the checkpoint and all four indices |
| LiteralLoop.DatabaseJobStruct.Execute | UserTools/DatabaseWorkers/DatabaseWorkers.cpp:636-655 | one statement: it joins the transaction, takes effect at once if that is closed, or is flagged, with the indices that its failure records and a new transaction |
| LiteralLoop.DatabaseJobStruct.RunBatch | UserTools/DatabaseWorkers/DatabaseWorkers.cpp:632-655 | the generic queries of one batch, from the checkpoint index as it stands |
| LiteralLoop.DatabaseJobStruct.RunGenerics | UserTools/DatabaseWorkers/DatabaseWorkers.cpp:627-656 | the generic queries section, batch after batch |
| LiteralLoop.DatabaseJobStruct.RunMulticast | UserTools/DatabaseWorkers/DatabaseWorkers.cpp:663-689 | a multicast section up to the endpoint index or the end of its queue |
| LiteralLoop.DatabaseJobStruct.RunTables | UserTools/DatabaseWorkers/DatabaseWorkers.cpp:785-933 | the inserts of one batch, table by table |
| LiteralLoop.DatabaseJobStruct.RunWrites | UserTools/DatabaseWorkers/DatabaseWorkers.cpp:777-935 | the write section |
| LiteralLoop.DatabaseJobStruct.TryCommit | UserTools/DatabaseWorkers/DatabaseWorkers.cpp:937-961 | a usable transaction is committed or broken, a committed one stays committed, a broken one broken; the endpoint follows a success; a failure makes nothing durable |
| LiteralLoop.DatabaseJobStruct.RunPass | UserTools/DatabaseWorkers/DatabaseWorkers.cpp:618-961 | one pass with the tests between its sections, on the transaction that the pass before has left, and the commit |
| LiteralLoop.DatabaseJobStruct.DatabaseJob | UserTools/DatabaseWorkers/DatabaseWorkers.cpp:616-973 | the loop as written, watched for any number of passes, computes the specified run and tells whether it has ended; after one pass whose commit failed the log is as before |
| LiteralLoop.PassProgress | UserTools/DatabaseWorkers/DatabaseWorkers.cpp:963-973 | a pass that loops although its transaction is committed flags a new statement; without a new flag a closed transaction stays as it is, and the loop goes on exactly if it is broken |
| LiteralLoop.EndsInTime | UserTools/DatabaseWorkers/DatabaseWorkers.cpp:973 | if commits succeed the loop ends, after one pass more than there are statements at the latest |
| LiteralLoop.FailedCommit | UserTools/DatabaseWorkers/DatabaseWorkers.cpp:955-959 | a pass that is not committed makes nothing of its transaction durable: only statements executed outside a transaction can have joined the log, none of them after a failure in an earlier section; endpoint and indices stand |
| LiteralLoop.NothingDurable | UserTools/DatabaseWorkers/DatabaseWorkers.cpp:955-959 | a pass on a usable transaction leaves the log alone if its commit fails |
| LiteralEnds.FailedCommitHangs | UserTools/DatabaseWorkers/DatabaseWorkers.cpp:955-973 | for every job: if the first commit fails and nothing else does, the loop never ends |
| LiteralEnds.NeverEndsIff | UserTools/DatabaseWorkers/DatabaseWorkers.cpp:939-973 | under any pattern of failures the loop never ends if and only if from some pass on the transaction is broken and no statement fails |
| LiteralFrames.QuietSection | UserTools/DatabaseWorkers/DatabaseWorkers.cpp:663-689 | a full section in which nothing fails adds each visited, unflagged statement once |
| LiteralFrames.EndpointSection | UserTools/DatabaseWorkers/DatabaseWorkers.cpp:628-663 | in the section of the endpoint, if nothing fails, exactly the statements before the endpoint's indices are sent |
| LiteralFrames.PassNotes | UserTools/DatabaseWorkers/DatabaseWorkers.cpp:648-650 | after a pass the checkpoint's indices are those of a statement that failed in it, or as before |
| LiteralFrames.CausedRun | UserTools/DatabaseWorkers/DatabaseWorkers.cpp:636-655 | over any run only statements that fail are flagged, and what is logged or open was executed without a failure |
| LiteralFails.StaleIndexSkips | UserTools/DatabaseWorkers/DatabaseWorkers.cpp:633 | a checkpoint index left by an earlier job makes generic queries be skipped although nothing fails; the loop ends without them |
| LiteralFails.LongQueueLost | UserTools/DatabaseWorkers/DatabaseWorkers.h:46 | of a queue of 65536 entries or more only the remainder is visited, as the loop bound is held in 16 bits; all others are lost although nothing fails |
| LiteralFails.LaterBatchesSkip | UserTools/DatabaseWorkers/DatabaseWorkers.cpp:632-649 | if only generic query (i, j) fails in the first pass, the batches after i begin with their j-th generic query in that pass |
| LiteralFails.LostBetween | UserTools/DatabaseWorkers/DatabaseWorkers.cpp:658-661 | if the last statements of two sections (or of one) fail, every statement between them is lost |
| LiteralFails.CommittedTwice | UserTools/DatabaseWorkers/DatabaseWorkers.cpp:942-944 | if only the first generic query fails, committed statements of the sections before the checkpoint (of all later sections, if it names the first one) are sent and committed again |
| LiteralFails.LostBeforeLast | UserTools/DatabaseWorkers/DatabaseWorkers.cpp:657-661 | if the first generic query and then the last statement of a later section fail, the statements between the old checkpoint and that one are lost |
| LiteralFails.GenericsLost | UserTools/DatabaseWorkers/DatabaseWorkers.cpp:627-634 | if the last generic query fails on a checkpoint at the first section, the other generic queries are lost |
| LiteralExact.SafeRun | UserTools/DatabaseWorkers/DatabaseWorkers.cpp:616-973 | on a safe job, as long as commits succeed, the loop as written ends with every statement committed once or flagged, whatever statements fail |
| LiteralExact.Breakable | UserTools/DatabaseWorkers/DatabaseWorkers.cpp:616-973 | every job that is not safe has a pattern of failing statements, with all commits succeeding, that loses or duplicates a statement |
| LiteralExact.LiteralExactlyOnceIff | UserTools/DatabaseWorkers/DatabaseWorkers.cpp:616-973 | as long as commits succeed, the loop as written ends and is right under every pattern of failing statements if and only if the job is safe |
| LiteralExact.NeverRightAlways | UserTools/DatabaseWorkers/DatabaseWorkers.cpp:955-973 | if commits may fail too, there is no job on which it is always right |
| LiteralExact.QuietRunIff | UserTools/DatabaseWorkers/DatabaseWorkers.cpp:627-656 | when no statement fails it ends and is right if and only if the first commit succeeds, and there is no generic query or no index is left over |
| LiteralNumbers.LostYetNumbered | UserTools/DatabaseWorkers/DatabaseWorkers.cpp:785-933 | under every adversary that fails the last write statement and nothing else, every other insert is lost, neither committed nor flagged, yet what numbers it returned in the first pass (alarms return none) are kept |
| LiteralNumbers.NumbersKeptIff | UserTools/DatabaseWorkers/DatabaseWorkers.cpp:810-933 | as long as commits succeed, the numbers kept for inserts are those of their committed executions, whatever statements fail, if and only if every insert that returns numbers is the last write statement of the job (so that there is at most one); alarm inserts may stand before it |
| LiteralReports.TrustySettled | UserTools/DatabaseWorkers/DatabaseWorkers.cpp:616-973 | on a trusty job, as long as commits succeed and whatever statements fail, every generic query and every insert ends either flagged, never committed and without numbers, or committed once, with the result or the numbers of the committing pass |
| LiteralMisreports.CommittedAgain | UserTools/DatabaseWorkers/DatabaseWorkers.cpp:658-661 | if the last statement of a multicast section fails in the first pass and one of an earlier section in the second, what was committed is sent and committed again |
| LiteralMisreports.HonestIff | UserTools/DatabaseWorkers/DatabaseWorkers.cpp:616-973 | as long as commits succeed: what the loop as written leaves in the batches is true of the log, whatever statements fail, if and only if the job is trusty |
| LiteralReplies.LostYetAcknowledged | UserTools/ResultWorkers/ResultWorkers.cpp:219-303 | if only the last write statement fails, every query of every other insert, alarms included, is told that it was stored, although it is not |
| LiteralReplies.LiteralAcknowledgedIff | UserTools/ResultWorkers/ResultWorkers.cpp:219-363 | split, loop as written and dealing together, as long as commits succeed: every reply to clean batches is true, whatever statements fail, if and only if the job is trusty; in every other job some client is told of a success although its statement is lost or committed twice |
| WriteSplit.RoutedExact | UserTools/WriteWorkers/WriteWorkers.cpp:214-249 | a table's array holds exactly the queries filed under it, in order of arrival |
| WriteSplit.GenericIndicesExact | UserTools/WriteWorkers/WriteWorkers.cpp:238-242 | the noted indices are those of the generic queries that decode |
| WriteSplit.QueryBatch.Reset | DataModel/QueryBatch.h:49-73 | arrays are opened, numbers, errors and indices emptied, queries kept |
| WriteSplit.QueryBatch.Close | DataModel/QueryBatch.h:75-96 | arrays with contents are closed, the others removed |
| WriteSplit.WriteJob.File | UserTools/WriteWorkers/WriteWorkers.cpp:168-251 | one query, known or unknown topic, decodable or not: its error, the buffer in hand, the array it goes to, for each letter that names a table |
| WriteSplit.WriteJob.WriteMessageJob | UserTools/WriteWorkers/WriteWorkers.cpp:163-256 | arrays, indices, numbers and errors as functions of the queries and of what the pointer left by an earlier job names: a buffer of another batch, or of this one; every query that decodes is an element of the array that its letter names |
| WriteSplit.RecycledLikeFresh | UserTools/WriteWorkers/WriteWorkers.cpp:163-256 | if queries of unknown topic come only after a batched one, a recycled batch gives the same arrays, indices, numbers and errors as a fresh one with the same queries, whatever the batches and the job structure held before |
| WriteSplit.StaleBufferIff | UserTools/WriteWorkers/WriteWorkers.cpp:243-249 | the buffer left in hand by an earlier job has no influence on any array if and only if no query of unknown topic decodes before the first batched one that does |
| Filing.FromWire | UserTools/WriteQueryReceiver/WriteQueryReceiver.cpp:214-261 | a four-part message from either kind of socket is held as client, message id, topic, query |
| Filing.FiledByLetter | UserTools/WriteWorkers/WriteWorkers.cpp:214-237 | a query whose topic's third letter is A, D, B, R, C, T or P is an element of exactly the array of alarms, device, base, run-mode configurations, calibrations, root plots or plotly plots, with its query part, unpacked if it is packed, as the element's text |
| Filing.GenericByLetter | UserTools/WriteWorkers/WriteWorkers.cpp:238-242 | the letter Q: noted as generic, in no array, and the database is given its unpacked text |
| Filing.StrayByLetter | UserTools/WriteWorkers/WriteWorkers.cpp:243-249 | any other letter: an element of the array of the nearest earlier query with a table's letter, or of whatever an earlier job left in hand |
| Filing.NotUnpacked | UserTools/WriteWorkers/WriteWorkers.cpp:172-205 | a query that cannot be unpacked is in no array, whatever its letter, and keeps the error |
| Arrays.AbsentIff | DataModel/QueryBatch.h:75-105 | there is no array exactly if no text went into it |
| Arrays.ArrayRoundTripIff | UserTools/WriteWorkers/WriteWorkers.cpp:248-256 | an array of JSON texts reads back (section 5 of RFC 8259) as exactly those texts, in order, if and only if there are any and none is empty |
| Arrays.TableArrayReadsBack | UserTools/WriteWorkers/WriteWorkers.cpp:214-256 | if the queries filed under a table carry JSON texts, its array is by the grammar a JSON array of exactly these, in order, and the reader returns them; it is absent if there are none |
| Arrays.QueueArrayReadsBack | UserTools/MulticastWorkers/MulticastWorkers.cpp:209-314 | the same for the array of a multicast queue and the messages of its topic, whatever else is in the batch |
| Arrays.TopicalAt | UserTools/MulticastWorkers/MulticastWorkers.cpp:223-289 | a message of a queue's topic is found in its array at the number of such messages before it |
| Arrays.TopicFirst | UserTools/MulticastWorkers/MulticastWorkers.cpp:249-278 | every message that begins with its topic, whatever members follow, is JSON and goes to the logging, monitoring, root plot or plotly plot queue if the topic begins with L, M, T or P, and to none otherwise |
| Arrays.LoggingMessage | UserTools/MulticastWorkers/MulticastWorkers.cpp:249-262 | such a message spelled out: it is put into the logging queue's array and read back from it |
| Arrays.MulticastMessageJob | UserTools/MulticastWorkers/MulticastWorkers.cpp:209-314 | each queue gets the array of the messages of its topic; others are left out |
| JsonText.JsonIsElement | UserTools/WriteWorkers/WriteWorkers.cpp:248-249 | every JSON text (RFC 8259, sections 2 to 7), however nested, spaced and escaped, is read as one array element |
| JsonText.JoinIsArray | DataModel/QueryBatch.h:75-96 | JSON texts, at least one, joined by commas in brackets are a JSON array of these values by the grammar, for any parser to read |
| JsonText.ReadBack | DataModel/QueryBatch.h:75-96 | a bracketed, comma-separated text of elements reads back as those elements |
| RowPrinting.PrintRow | UserTools/ResultWorkers/ResultWorkers.cpp:320-335 | the loop over the fields builds the object text |
| RowPrinting.RowRoundTrip | UserTools/ResultWorkers/ResultWorkers.cpp:317-338 | a row whose names and quoted values need no escaping reads back (section 4 of RFC 8259) as the same columns and values, quoted for exactly four type codes |
| RowPrinting.RowRoundTripIff | UserTools/ResultWorkers/ResultWorkers.cpp:317-338 | a row of any columns with plain names reads back as its columns if and only if every quoted value needs no escaping and every other value is an element of its own; an SQL null, which prints as nothing, is not |
| RowPrinting.RowIsJson | UserTools/ResultWorkers/ResultWorkers.cpp:317-338 | such a row, with values that are JSON texts where they are not quoted, is an object by the grammar |
| RowPrinting.QuotedRoundTripIff | UserTools/ResultWorkers/ResultWorkers.cpp:329-330 | a quoted column reads back as its own text if and only if that text needs no escaping |
| ResultDealing.ResultJob.SetRows | DataModel/ZmqQuery.h:89-116 | success slot and rows are overwritten part by part, the first two parts stay |
| ResultDealing.ResultJob.PrintRows | UserTools/ResultWorkers/ResultWorkers.cpp:315-347 | one compressed object text for each row, in order, unless a row cannot be read |
| ResultDealing.ResultJob.AnswerWrite | UserTools/ResultWorkers/ResultWorkers.cpp:236-361 | the reply to a write query of each topic, also when its rows cannot be read, and how the counter of its table moves |
| ResultDealing.ResultJob.AnswerRead | UserTools/ResultWorkers/ResultWorkers.cpp:161-212 | the reply to a read query: cached configuration, error, rows, or that they cannot be read |
| ResultDealing.ResultJob.DealReads | UserTools/ResultWorkers/ResultWorkers.cpp:161-213 | every query of a read batch is replaced by its reply |
| ResultDealing.ResultJob.DealWrites | UserTools/ResultWorkers/ResultWorkers.cpp:219-363 | every query of a write batch is replaced by the reply for its place among the queries of its topic; the counters end at the number of such queries |
| ResultDealing.ResultJobOn | UserTools/ResultWorkers/ResultWorkers.cpp:142-367 | a non-empty batch is dealt as reads if its first topic begins with R, and as writes otherwise |
| ResultDealing.SameReplies | UserTools/ResultWorkers/ResultWorkers.cpp:142-367 | batches that agree in queries, numbers and errors get the same replies, whatever they and the jobs were used for before |
| ResultDealing.WriteAddress | DataModel/ZmqQuery.h:71-116 | a reply to a write keeps the client and message id of its query |
| ResultDealing.ReadAddress | DataModel/ZmqQuery.h:71-116 | a reply to a read keeps the client and message id of its query |
| ResultDealing.ReplyLeavesNothing | DataModel/ZmqQuery.h:83-87 | after its reply nothing of a query's result, error and unpacked text is left; a write of unknown topic goes back as it came |
| SplitMerge.InStepAt | UserTools/ResultWorkers/ResultWorkers.cpp:221-303 | the k-th query of a topic is the k-th element of its table's array |
| SplitMerge.CleanDeserved | UserTools/ResultWorkers/ResultWorkers.cpp:219-363 | in a clean batch every query gets the answer its own element deserves, whatever becomes of the arrays |
| SplitMerge.UncleanFails | UserTools/WriteWorkers/WriteWorkers.cpp:243-249 | in any other batch some query is told the wrong thing or a vector is not used up, already when all inserts succeed |
| SplitMerge.AlignedIff | UserTools/ResultWorkers/ResultWorkers.cpp:219-363 | replies are as deserved and vectors used up exactly under all outcomes if and only if the batch is clean |
| SplitMerge.FailureStaysInItsTopic | UserTools/ResultWorkers/ResultWorkers.cpp:227-303 | a failed insert is reported to exactly the queries of its topic |
| Acknowledgement.Present | DataModel/QueryBatch.h:98-104 | the database job sees an array of a table exactly if some query is filed under it |
| Acknowledgement.OutcomesPossible | UserTools/DatabaseWorkers/DatabaseWorkers.cpp:785-933 | the retry loop leaves each table with an error, or with one number of the committing pass for each element |
| Acknowledgement.AcknowledgementSound | UserTools/ResultWorkers/ResultWorkers.cpp:219-363 | after split, retry loop and dealing a reply reports success if and only if the query's own statement is committed (and the rows of the committing pass can be read), with the number given to its own element in the committing pass |
| Acknowledgement.RepliesExplained | UserTools/ResultWorkers/ResultWorkers.cpp:234-363 | the rest of such a reply, too, belongs to the query's own statement: the rows of its committing pass, its error, or nothing for alarms |
| ReadRetry.PullKeeps | UserTools/DatabaseWorkers/DatabaseWorkers.cpp:545-577 | an attempt leaves earlier queries alone and a failure moves last_i strictly on |
| ReadRetry.MeantIsOneByOne | UserTools/DatabaseWorkers/DatabaseWorkers.cpp:515-590 | the pipelined retry (meant test) equals sending the queries one by one |
| ReadRetry.MeantAnswersAll | UserTools/DatabaseWorkers/DatabaseWorkers.cpp:515-590 | every query ends skipped, with the rows of its own text, or with its own error |
| ReadRetry.SecondReadLost | UserTools/DatabaseWorkers/DatabaseWorkers.cpp:546-548 | as written, if the first query for the database fails the second one is never answered |
| ReadRetry.LiteralReadIff | UserTools/DatabaseWorkers/DatabaseWorkers.cpp:515-590 | as written, all queries are answered under every pattern of failures if and only if at most one goes to the database |
| ReadRetry.QuietReadsRight | UserTools/DatabaseWorkers/DatabaseWorkers.cpp:515-590 | as written, all queries are answered if nothing fails |
| ReadRetry.ReadJob.InsertAll | UserTools/DatabaseWorkers/DatabaseWorkers.cpp:531-542 | an id for each query from last_i on, 0 for exactly those that are not sent |
| ReadRetry.ReadJob.PullOne | UserTools/DatabaseWorkers/DatabaseWorkers.cpp:546-576 | one retrieval, its result or its error |
| ReadRetry.ReadJob.PullAll | UserTools/DatabaseWorkers/DatabaseWorkers.cpp:544-577 | one attempt computes the specified one |
| ReadRetry.ReadJob.ReadBatch | UserTools/DatabaseWorkers/DatabaseWorkers.cpp:522-579 | the attempts follow one another until one meets no failure, and end |
| ReadAcknowledgement.ReadsAcknowledged | UserTools/ResultWorkers/ResultWorkers.cpp:157-213 | after the meant retry every reader is told of success if and only if the database answered its own query with rows that can be read, or the cache holds it, with its own rows or error |
| ReadAcknowledgement.SilentlyEmpty | UserTools/DatabaseWorkers/DatabaseWorkers.cpp:545-577 | as written, a read after a failed one is reported as a success without rows, whatever the database holds |
| ReadAcknowledgement.NotSent | UserTools/DatabaseWorkers/DatabaseWorkers.cpp:537 | a read of letter K, or one with an error, is not touched by the database |
| ReadAcknowledgement.RefusedEmpty | UserTools/DatabaseWorkers/DatabaseWorkers.cpp:551-576 | a read that the database refuses holds its error and no rows |
| Dispatch.AnswerReads | UserTools/ResultWorkers/ResultWorkers.cpp:157-213 | what stands in a batch whose first topic begins with R after the meant retry and the result worker: every reader is told what belongs to its own query |
| Dispatch.ReadsDealt | UserTools/ResultWorkers/ResultWorkers.cpp:157-213 | the same of the single reply, whatever numbers and errors the batch holds |
| Dispatch.WritesDealt | UserTools/ResultWorkers/ResultWorkers.cpp:217-363 | in a clean batch whose first topic begins with any other letter, after the meant loop: every client is told of success exactly if its own statement is committed, and what else belongs to it |
| Dispatch.Serve | UserTools/ResultWorkers/ResultWorkers.cpp:142-367 | a write batch split, run by the meant loop among the other batches of its job, and answered: what stands in the batch in the end is acknowledged and explained for every client |
| ConfigCache.CollectedAll | UserTools/DatabaseWorkers/DatabaseWorkers.cpp:430-433 | whatever the order of the rows, they add up to the device configurations that the run-mode configuration overriding the base one names |
| ConfigCache.RunKeeps | UserTools/DatabaseWorkers/DatabaseWorkers.cpp:387-455 | over any sequence of loads, failing anywhere, the cache holds exactly the documents of the last load that got to the swap, and the stored ids are its ids except until they are assigned |
| ConfigCache.LookupSound | UserTools/ResultWorkers/ResultWorkers.cpp:165-176 | a read from the cache, at any moment, is answered if and only if the last load names an existing version, with its data and the ids of that load |
| ConfigCache.LoadCompletes | UserTools/DatabaseWorkers/DatabaseWorkers.cpp:430-440 | an undisturbed load ends with its documents in the cache and its ids stored |
| ConfigCache.FailureAside | UserTools/DatabaseWorkers/DatabaseWorkers.cpp:387-455 | a load that fails before the swap leaves cache and ids as they were, and another one can begin |
| ConfigCache.ConfigStore.CacheConfigs | UserTools/DatabaseWorkers/DatabaseWorkers.cpp:387-455 | a load with both ids and without a failure replaces cache and ids; any other one leaves both alone |
| Versions.VersionedTable.Insert | SetupDatabase.sh:298 | trigger and insertion keep the table equal to the filtered history and return start plus the number of earlier insertions of the name |
| Versions.VersionedTable.InsertAll | UserTools/DatabaseWorkers/DatabaseWorkers.cpp:485 | an inserted array returns one version for each element, in order |
| Versions.NextAfter | SetupDatabase.sh:307 | despite pruning, the next version of a name is the start value plus the number of its insertions |
| Versions.TableStep | SetupDatabase.sh:298 | deleting and inserting step by step yields the full history filtered to rows with version+lifetime >= latest and the latest row |
| Versions.FullVersions | SetupDatabase.sh:165 | versions of a name lie between start value and latest, and rise |
| Versions.VersionUsed | SetupDatabase.sh:201 | no version between start value and latest is left out |
| Versions.VersionsForAt | SetupDatabase.sh:298 | the version of an array element continues the count of its name over all earlier arrays and elements |
| Versions.SteadyLifetime | SetupDatabase.sh:293-298 | with one lifetime for all, exactly the latest lifetime + 1 versions of a name are in the table |
| Versions.RowStays | SetupDatabase.sh:293-298 | the row of any insertion is still there if and only if at most as many insertions of its name as its own lifetime have followed it, or none; without pruning every row is |
| Alarms.RunKeeps | SetupDatabase.sh:275-276 | over any run at most one row of a pair is open, its counters add up to the number of reports, and the open row shows the latest report's time |
| Alarms.AfterReport | SetupDatabase.sh:275-276 | after a report the pair has an open row that shows it: the one that was open, counted up, or a new one with this time as its first and last; nothing else changes |
| Alarms.RunShowsFirst | SetupDatabase.sh:275-276 | an open row keeps the time of the report that opened it |
| Alarms.AfterResolve | SetupDatabase.sh:261 | resolving a row marks it and changes nothing else |
| Alarms.AlarmTable.Insert | SetupDatabase.sh:275-276 | the update loop and the insertion compute the specified step; no two open rows share device and description |
| Alarms.AlarmTable.ResolveRow | SetupDatabase.sh:261 | resolving a row is a step of the same run |
| Receiver.NothingLostNothingAdded | UserTools/WriteQueryReceiver/WriteQueryReceiver.cpp:146-261 | for any stream of messages of any part count with failures, published batches and complete local entries are exactly the well-formed messages, in order |
| Receiver.StoredAlike | UserTools/ReadQueryReceiverReplySender/ReadQueryReceiverReplySender.cpp:226-248 | both wire orders are stored as client, message id, topic, query, whatever the entry held before |
| Receiver.HandedOver | UserTools/WriteQueryReceiver/WriteQueryReceiver.cpp:146-170 | a turn hands over all complete entries as one batch if the batch is full or the period is over, and nothing otherwise |
| Receiver.PublishedInTime | UserTools/WriteQueryReceiver/WriteQueryReceiver.cpp:146-170 | once the period is over everything complete before that turn has been handed over |
| Receiver.Bounded | UserTools/WriteQueryReceiver/WriteQueryReceiver.cpp:146-170 | no batch grows beyond the limit |
| Receiver.EmptyBatchIff | UserTools/WriteQueryReceiver/WriteQueryReceiver.cpp:149-158 | an empty batch is published exactly when all there is is an incomplete entry |
| Receiver.EmptyBatchPossible | UserTools/WriteQueryReceiver/WriteQueryReceiver.cpp:146-170 | a single one-part message makes it happen |
| Receiver.QueryReceiver.HandOver | UserTools/ReadQueryReceiverReplySender/ReadQueryReceiverReplySender.cpp:157-173 | the batch is published without its incomplete entry and a new one begun |
| Receiver.QueryReceiver.Read | UserTools/WriteQueryReceiver/WriteQueryReceiver.cpp:214-261 | part after part is received into its slot; only four parts complete the entry |
| Receiver.QueryReceiver.Thread | UserTools/WriteQueryReceiver/WriteQueryReceiver.cpp:140-290 | one turn computes the specified step |
| SwapBuffer.Fifo | UserTools/MulticastReceiverSender/MulticastReceiverSender.cpp:423-457 | attempted sends, the rest of the local buffer and the shared queue are everything enqueued, in order; published and local inbound messages are everything received |
| SwapBuffer.Recorded | UserTools/MulticastReceiverSender/MulticastReceiverSender.cpp:346-460 | what counts as enqueued and received is exactly the messages enqueued and the datagrams of turns in which the poll worked |
| SwapBuffer.HandedOver | UserTools/MulticastReceiverSender/MulticastReceiverSender.cpp:346-380 | a turn hands over the local batch if it exceeds the limit or the period is over, and nothing otherwise |
| SwapBuffer.PublishedInTime | UserTools/MulticastReceiverSender/MulticastReceiverSender.cpp:346-380 | once the period is over everything received before that turn has been handed over |
| SwapBuffer.OneTurn | UserTools/MulticastReceiverSender/MulticastReceiverSender.cpp:423-457 | a turn attempts at most one message, none if the poll fails, and swaps a used-up buffer |
| SwapBuffer.Drains | UserTools/MulticastReceiverSender/MulticastReceiverSender.cpp:423-457 | enough turns with a working poll attempt everything enqueued |
| SwapBuffer.MulticastSender.Thread | UserTools/MulticastReceiverSender/MulticastReceiverSender.cpp:346-460 | one turn computes the specified step and attempts what it returns |
| WorkerCap.CapHolds | UserTools/DatabaseWorkers/DatabaseWorkers.cpp:231-293 | in every interleaving the counter equals the outstanding logging and monitoring jobs between turns of the distributor and never exceeds the cap |
| WorkerCap.AdmittedIff | UserTools/DatabaseWorkers/DatabaseWorkers.cpp:231-293 | logging and monitoring work that is waiting is given to a new job if and only if fewer jobs than the cap carry such work; other work does not wait for it |
| WorkerCap.ReturnFrees | UserTools/DatabaseWorkers/DatabaseWorkers.cpp:994-997 | a job that returns makes room if it carried such work |
| WorkerCap.AllReturned | UserTools/DatabaseWorkers/DatabaseWorkers.cpp:994-997 | once all jobs have returned, by success or failure, the counter is back at zero |
| Handoff.Conservation | UserTools/DatabaseWorkers/DatabaseWorkers.cpp:597-602 | in every interleaving each batch is in one place, pooled batches are empty, and arrived requests are those attempted plus those still in batches |
| Handoff.OnePlaceEach | UserTools/WriteWorkers/WriteWorkers.cpp:69-113 | every allocated batch is in exactly one queue, job, receiver, sender or the pool, or lost with a failed job |
| Handoff.AtMostOneReply | UserTools/ReadQueryReceiverReplySender/ReadQueryReceiverReplySender.cpp:302-437 | a reply to a request is attempted at most once, and only if the request arrived |
| Handoff.ExactlyOneReply | UserTools/ReadQueryReceiverReplySender/ReadQueryReceiverReplySender.cpp:412-437 | once the pipeline is drained without a failed job, a reply to every request has been attempted exactly once |
| HandoffProgress.AnswerableIff | UserTools/ReadQueryReceiverReplySender/ReadQueryReceiverReplySender.cpp:302-437 | after any run, a request that has arrived is answered already or can be, exactly once and without any further failure, if and only if its batch was not lost with a failed job |
| HandoffProgress.AllAnswerable | UserTools/ReadQueryReceiverReplySender/ReadQueryReceiverReplySender.cpp:302-437 | as long as no job has failed, the pipeline can go on so that every request that has arrived is answered exactly once |
| HandoffProgress.RouteKept | UserTools/DatabaseWorkers/DatabaseWorkers.cpp:597-602 | in every step a batch stays where it is or moves to the next place of its route, reads and writes apart; only failing jobs lose batches |
| HandoffProgress.AllArrive | UserTools/WriteQueryReceiver/WriteQueryReceiver.cpp:214-261 | every received message arrives as a request |
| HandoffProgress.JoinsBatch | UserTools/WriteQueryReceiver/WriteQueryReceiver.cpp:214-261 | it joins the end of the batch of its receiver and nothing else changes |
| HandoffProgress.NothingLost | UserTools/WriteWorkers/WriteWorkers.cpp:117-125 | without failing jobs no batch is ever lost |
| HandoffProgress.FailureLoses | UserTools/WriteWorkers/WriteWorkers.cpp:117-125 | a write, read or result job that fails loses its batch |
| HandoffProgress.DbFailureLoses | UserTools/DatabaseWorkers/DatabaseWorkers.cpp:305-330 | a database job that fails loses the batches it still holds |
| HandoffProgress.InOrder | UserTools/WriteWorkers/WriteWorkers.cpp:69-113 | queues are taken over and served in order |
| HandoffProgress.WritesWait | UserTools/DatabaseWorkers/DatabaseWorkers.cpp:590-602 | a database job passes its read batches on before its write batches |
| HandoffProgress.PoolReused | UserTools/ReadQueryReceiverReplySender/ReadQueryReceiverReplySender.cpp:157-173 | a receiver that finds a batch in the pool takes it, empty, and nothing is allocated |
| HandoffProgress.FinishedPooled | UserTools/ReadQueryReceiverReplySender/ReadQueryReceiverReplySender.cpp:412-437 | when the sender fetches the next batch of replies, the one it has finished goes to the pool |

## Left out

- WriteSplit.WriteJob.WriteMessageJob: a query of unknown topic before the first batched one is appended to whatever buffer the old pointer names; if that belongs to another batch, what happens to that batch is not modelled.
- SplitMerge.AlignedIff: messages with an empty text are outside it; their array elements would be missing, see Arrays.ArrayRoundTripIff.
- Acknowledgement.AcknowledgementSound: composed with the meant retry loop; the loop as written has the property on trusty jobs only, see LiteralReplies.LiteralAcknowledgedIff.
- LiteralReplies.LiteralAcknowledgedIff: a run that reads past a queue, which C++ leaves undefined, is not counted as deceiving anyone; commits that succeed; an array of alarms is taken to hold a query of the alarm topic, since one made of queries of unknown topic alone has no client.
- LiteralExact.LiteralExactlyOnceIff: queues of up to 65535 entries, as the loop bound is held in 16 bits, see LiteralFails.LongQueueLost for longer ones; commits that succeed, as nothing holds otherwise, see LiteralEnds.FailedCommitHangs.
- Arrays.TableArrayReadsBack: JSON texts without white space around them; the scanner drops it, so that such a text is read back without it.
- Handoff.OnePlaceEach: references that a container keeps for a while after handing its batches on, without using them, are not counted as places.
- Handoff.ExactlyOneReply: an attempted reply may still fail in the socket; the cursor moves on regardless, and retries do not exist.
- ZMQ, UDP, PostgreSQL client calls and zstd: received parts, outcomes of statements and commits, returned rows and numbers, and the result of decompression are parameters.
- An in-doubt commit, which makes the job throw, and any other exception that ends a job early inside the write loop: only Handoff and WorkerCap know failed jobs.
- A version number that does not fit into 16 bits: the conversion throws and counts as a failing statement; numbers pushed before the failure are not modelled.
- `base_config` and `runmode_config` return the serial `config_id` rather than the version; the dealing is the same, the sequence behind it is not modelled.
- Rows without columns in read batches, which would be read out of bounds.
- Multicast buffers going back to their pool on every pass, and the buffers of empty multicast topics, which are neither queued nor returned.
- The logging loop of the receivers, which prints the parts of a message with an unexpected part count.
- The swap of the config cache and a lookup from another thread at the same moment: the swap is one step.
- ReadMessageJob: decompresses each query of a read batch and flags failures exactly as the write worker does.
- Concurrent transactions on the database: trigger firings are serialised; the version triggers lock the name, the alarm trigger takes no lock.
- Integer overflow of versions, counters and lifetimes in the database.
- Timing, monitoring counters, logging, thread and socket management, slow control.
