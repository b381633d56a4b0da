# Verified model of the Go utility libraries

A Dafny model of the parts of the repository whose behaviour is hardest to see from reading one
function, with proofs of what they promise.

- `Wrappers`, `Integers`: result types and int64 arithmetic.
- `Decimal`, `Amounts`, `EvmAmount`, `SolanaAmount`, `BitcoinAmount`, `AmountTheorems`: the decimal
  amount parsers and printers of the four wallets. The parsers are compared with one reference reading
  of the notation (`Amounts.Read`, `Amounts.Scaled`). Solana and TRON share one algorithm, line for
  line, so `SolanaAmount` stands for both.
- `UtxoList`, `UtxoSelection`, `PrevOutputs`, `Sweep`: listing, choosing and checking unspent outputs,
  and raising the sweep fee. A sub-collection of coins is a yes/no choice per coin; int64 wrap-around
  is written out; fee rates are reals; the API is a function from transaction id to answer; signing
  is a function that gives a size per attempt.
- `WorkerPool`, `FileWriter`, `UploadClose`, `StreamBody`, `UseCounter`: concurrent protocols as
  transition systems. A `State` holds the shared variables and every thread's position; `Enabled` and
  `Apply` give one atomic step each, at the granularity of single loads, stores, lock, channel,
  condition and once operations; `Leads(s, steps, t)` is a run. Theorems speak of every reachable
  state of every interleaving of any number of threads.
- `UploadLength`: the Content-Length check of upload bodies.
- `Urls`, `FetchMetadata`, `Redirect`: the redirect loop of `DoStream`. Server answers, redirect
  targets, failures of request building and of `GetBody` are arbitrary (`Outside`). `Round` gives the
  loop's values hop by hop; the method `DoStream` is proved to send exactly the requests of the rounds.
- `Pop3`: reading multi-line responses (section 3 of RFC 1939) from a byte stream.
- `ProxyPool`: the pool with unique keys and round-robin choice; the clock is an input.

Some promises turn out to hold only under a condition. For each there is a theorem with the exact
condition, for all inputs or all reachable states, and a lemma with a concrete input or run that
breaks the promise:

| promise | exact condition | broken by |
|---|---|---|
| a sleeping dispatcher has a wake-up or a worker's signal to come | `WorkerPool.StuckOnlyByTruncation`: no size given to New or Resize wraps to an int32 limit below one | `WorkerPool.HalfRangeSticks` |
| Resize's wake-up is seen | `WorkerPool.BroadcastSuffices`: the broadcast does not fall between the comparison with the old limit and the entry into the wait list | `WorkerPool.MissedWakeUp` |
| once Close has returned the handle map is empty | `FileWriter.CloseLeavesEmptyMap`: at its look at `closed` the writer is open or the map is empty | `FileWriter.SecondCloseReturnsEarly` |
| a write does not meet a closed file | `FileWriter.WriteMeetsClosedFile`: at the detach nobody writes a cached file whose key is not in the snapshot | `FileWriter.UncoveredWrite` |
| int64 selection is as good as exact selection | `UtxoSelection.OverflowBoundary`, `ShortfallBoundary`, `FewestBoundary`: the target is at most 2^62 | `UtxoSelection.WrappingMisses` |
| the list does not depend on the order of the response | `UtxoList.OrderIndependence`: surviving entries with one key are equal | `UtxoList.RepeatedKeyMatters` |
| no output is listed twice | `UtxoList.OutpointsDistinct`: each surviving id is spelled in one letter case | `UtxoList.LetterCaseListsTwice` |
| a POP3 response gives the lines back | `Pop3.RoundTrip`: no line contains LF, starts with CR or exceeds the limit | `Pop3.CarriageReturnEnds` |
| printed amounts parse back | `EvmAmount.RoundTrip`, `SolanaAmount.RoundTrip`, `BitcoinAmount.RoundTrip`: not negative and, for Bitcoin, within the supply | `EvmAmount.MinusBehindDot`; the Solana and Bitcoin theorems give the error of every other value |

The comments in the repository are silent on all of them.

## Model

| member | source | states |
|---|---|---|
| EvmAmount.ParseMeaning | web3utils/evm/wallet.go:800-840 | concatenating digits, cutting or padding the fraction and trimming zeros gives, for every text and every decimals, the scaled value of the reference reading, or the error of the first check that fails |
| EvmAmount.ParseFloors | web3utils/evm/wallet.go:824-832 | an accepted amount, of any fraction length, is the exact rational amount in units of 10^-decimals rounded down |
| EvmAmount.RoundTrip | web3utils/evm/wallet.go:842-861 | for every integer and number of decimals the printed value parses back if and only if it is not negative; the text of a negative one, such as "-5" or "0.-5", is refused |
| EvmAmount.MinusBehindDot | web3utils/evm/wallet.go:842-861 | -5 with two decimals prints as "0.-5", which the parser refuses as malformed |
| EvmAmount.Refusals | web3utils/evm/wallet.go:800-823 | literal texts show the order in which errors are looked for: nothing there, the sign, the decimals, the format, a leading plus included |
| SolanaAmount.ParseUnits | web3utils/solana/wallet.go:633-685 | splitting at every dot, multiplying the whole part in place and adding the padded fraction computes the reference reading as one digit string, with the same errors |
| SolanaAmount.Accepts | web3utils/solana/wallet.go:633-685 | digits around a dot, with white space around and perhaps a plus in front, are worth the whole part times 10^d plus the fraction times what is left of 10^d, for 0 to 255 decimals |
| SolanaAmount.RefusedAtOnce | web3utils/solana/wallet.go:634-646 | literal texts and 256 or -1 decimals show the order of the first errors |
| SolanaAmount.RefusedByFormat | web3utils/solana/wallet.go:648-670 | a letter and a second dot are refused as malformed, a fraction too long for the decimals as such |
| SolanaAmount.RoundTrip | web3utils/solana/wallet.go:687-713 | for every integer and 0 to 255 decimals, the printed value parses back if and only if it is not negative; a negative one is refused as negative |
| SolanaAmount.FormatIsCanonical | web3utils/tron/wallet.go:763-789 | the printer shared with TRON gives the canonical text |
| BitcoinAmount.ParseBTCAmount | web3utils/bitcoin/transaction.go:1002-1051 | the fixed eight-place parser computes the reference reading, refuses a bare trailing dot, more than eight places and more than the coin supply |
| BitcoinAmount.Refusals | web3utils/bitcoin/transaction.go:1002-1035 | literal texts show the order of the errors, among them a bare trailing dot and a ninth place |
| BitcoinAmount.FormatIsCanonical | web3utils/bitcoin/wallet.go:474-490 | dividing by 10^8 and trimming zeros and the dot gives the canonical text |
| BitcoinAmount.RoundTrip | web3utils/bitcoin/wallet.go:474-490 | over all int64 values, the smallest included, the printed amount parses back if and only if it lies between 0 and the supply |
| BitcoinAmount.NegativePrints | web3utils/bitcoin/wallet.go:474-490 | a negative amount prints as its absolute value behind a minus sign, but for the smallest int64 |
| BitcoinAmount.SmallestPrints | web3utils/bitcoin/wallet.go:474-490 | the smallest int64 prints with a sign in both of its parts |
| Amounts.CanonicalReads | web3utils/evm/wallet.go:842-861 | the canonical text has no sign and no space and reads back as the value it was made from |
| Amounts.CanonicalShape | web3utils/evm/wallet.go:842-861 | the canonical text has no superfluous zero in front of the whole part or behind the fraction |
| Amounts.ReadMeans | web3utils/solana/wallet.go:648-670 | the notation is digits, or digits around exactly one dot, and nothing else |
| Decimal.SpaceTrimmed | web3utils/solana/wallet.go:634 | what trimming takes off either end is white space, and none is left there |
| AmountTheorems.EvmRefinesSolana | web3utils/solana/wallet.go:633-685 | without a leading plus EVM accepts what Solana accepts with the same value, and Solana accepts what EVM accepts if and only if the fraction fits; EVM never accepts a leading plus |
| AmountTheorems.BitcoinNarrowsSolana | web3utils/bitcoin/transaction.go:1002-1051 | Bitcoin accepts exactly what Solana accepts at eight places, less amounts above the supply and a bare trailing dot |
| AmountTheorems.PrintersAgree | web3utils/bitcoin/wallet.go:474-490 | all printers agree on non-negative amounts and print different amounts differently |
| UtxoList.KeyInjective | web3utils/bitcoin/transaction.go:670-674 | the dedup text identifies transaction id and output index |
| UtxoList.ListUnspent | web3utils/bitcoin/transaction.go:656-687 | the filter and dedup loop and the stable sort give the listing of the specification |
| UtxoList.ListedOrdered | web3utils/bitcoin/transaction.go:661-686 | the listing is strictly ordered, has no key twice, is descending in value, and contains exactly the survivors |
| UtxoList.ListedEntries | web3utils/bitcoin/transaction.go:661-676 | by the entries' own fields: listed are only entries of the response with positive value, an id of 64 hexadecimal digits and, unless unconfirmed ones are asked for, a confirmation; and every such output is listed |
| UtxoList.ListedTies | web3utils/bitcoin/transaction.go:677-685 | entries of equal value stand in the lexicographic order of their ids, outputs of one transaction in the order of their indexes |
| UtxoList.UnconfirmedListed | web3utils/bitcoin/transaction.go:667-669 | a literal unconfirmed entry is listed if and only if unconfirmed ones are asked for |
| UtxoList.OutpointLowered | web3utils/bitcoin/transaction.go:607-615 | the outpoint spent is the id in lower case with its index |
| UtxoList.ListedCanonical | web3utils/bitcoin/transaction.go:661-686 | two responses with the same surviving entries, whatever their order, repetitions and junk, give the identical list |
| UtxoList.OrderIndependence | web3utils/bitcoin/transaction.go:670-686 | every reordering of a response gives the same list if and only if surviving entries with one key are equal |
| UtxoList.RepeatedKeyMatters | web3utils/bitcoin/transaction.go:670-674 | two literal entries with one key and different values: whichever comes first is the one listed |
| UtxoList.OutpointsDistinct | web3utils/bitcoin/transaction.go:670-674 | no output is listed twice if and only if the response spells each surviving id in one letter case |
| UtxoList.LetterCaseListsTwice | web3utils/bitcoin/transaction.go:670-674 | two literal entries for one output, its id spelled in lower and upper case, are both listed |
| UtxoSelection.SelectUTXOs | web3utils/bitcoin/transaction.go:628-654 | the two loops, with int64 additions, compute the selection of the specification, with at most maxInputs coins if that is positive |
| UtxoSelection.SelectionWithin | web3utils/bitcoin/transaction.go:640-643 | no more coins are selected than the caller allows, and only listed ones |
| UtxoSelection.SingleSelection | web3utils/bitcoin/transaction.go:629-639 | if the first coin is worth the target, the last of the leading coins that are is selected alone |
| UtxoSelection.PickedBounded | web3utils/bitcoin/transaction.go:640-652 | exchange argument: no n coins of a descending list are worth more than its first n |
| UtxoSelection.SelectionFeasible | web3utils/bitcoin/transaction.go:628-654 | with unbounded additions the selection reaches a target if and only if some sub-collection within the input limit does |
| UtxoSelection.SelectionMinimal | web3utils/bitcoin/transaction.go:628-654 | with unbounded additions no sub-collection within the limit that reaches the target has fewer coins; a sufficient single coin is the least sufficient one |
| UtxoSelection.SelectionMonotone | web3utils/bitcoin/transaction.go:628-654 | for every pair of targets, with the int64 additions as with unbounded ones, the higher target never lowers the number of coins or their total |
| UtxoSelection.GreedySelection | web3utils/bitcoin/transaction.go:640-653 | otherwise the coins from the front, up to the first prefix that reaches the target, the input limit or the end; the total is at most twice the target less two; int64 and exact selection agree up to 2^62 |
| UtxoSelection.OverflowBoundary | web3utils/bitcoin/transaction.go:646-648 | the int64 loop selects what unbounded arithmetic would on every coin list if and only if the target is at most 2^62 |
| UtxoSelection.ShortfallBoundary | web3utils/bitcoin/transaction.go:605-617 | on every coin list the int64 program reports insufficient funds exactly when no allowed sub-collection reaches the target, if and only if the target is at most 2^62 |
| UtxoSelection.FewestBoundary | web3utils/bitcoin/transaction.go:628-654 | on every coin list the int64 program selects as few coins as any sufficient sub-collection, if and only if the target is at most 2^62 |
| UtxoSelection.WrappingMisses | web3utils/bitcoin/transaction.go:640-652 | for each target above 2^62 three coins of which two would do, and the program takes three and reports a shortfall |
| UtxoSelection.ListedCoins | web3utils/bitcoin/transaction.go:656-687 | a listing of int64 values is a coin list as the selection needs it |
| UtxoSelection.InputSource | web3utils/bitcoin/transaction.go:599-626 | inputs, values and scripts match the selection in order; an invalid id is refused; otherwise the total is the int64 sum and a shortfall is reported if and only if it is below the target; up to 2^62 that is if and only if no allowed sub-collection reaches the target |
| PrevOutputs.VerifySelected | web3utils/bitcoin/transaction.go:853-891 | the cached check gives the verdict, error included, of fetching every input's transaction afresh, and asks for each transaction at most once |
| PrevOutputs.AcceptedInputs | web3utils/bitcoin/transaction.go:878-888 | acceptance means that each input spends an existing output of the claimed value and script, and conversely |
| PrevOutputs.VerdictMeans | web3utils/bitcoin/transaction.go:853-891 | a transaction is accepted if and only if its lists are aligned and every input matches its output, and refused as misaligned if and only if they are not |
| PrevOutputs.RefusedInput | web3utils/bitcoin/transaction.go:858-890 | a refusal names the first input at fault and what is wrong with it |
| Sweep.TransactionFee | web3utils/bitcoin/transaction.go:797-806 | the fee is total input less the sum of outputs |
| Sweep.SweepInputs | web3utils/bitcoin/transaction.go:361-379 | collects all coins in order with their exact total, and fails if and only if that total is no int64 |
| Sweep.PayForSize | web3utils/bitcoin/transaction.go:390-450 | at most four attempts; the first fee is the greater of 1 and the least integer not below rate times estimate, each further one the least integer not below rate times the size signed before; the result pays rate times its own size, in reals; the check of the first attempt covers the final transaction; every failure is explained, a failed verification by the verdict on the inputs |
| Sweep.FeesIncrease | web3utils/bitcoin/transaction.go:440-449 | the fees tried strictly increase |
| Sweep.FailureNeedsGrowth | web3utils/bitcoin/transaction.go:440-449 | running out of attempts needs a signed transaction larger than the one before in every attempt |
| Sweep.BuildSweep | web3utils/bitcoin/transaction.go:342-450 | a sweep spends every listed coin within the input limit, output plus fee is their exact total, the output is positive and not dust, the fee is at least rate times size, and with verification all inputs were verified; the failures are told apart, a failed verification with the verdict on the listed coins |
| WorkerPool.TasksConserved | workerpool/pool.go:50-112 | until Stop, started, held and queued tasks are the accepted ones in order; always the started ones are the first accepted; every other accepted task is held, queued or discarded; after Stop at most one more starts |
| WorkerPool.QueueBounded | workerpool/pool.go:101-112 | at most 10000 tasks are queued, and a Submit past its check waits exactly while the queue is full and the context not cancelled |
| WorkerPool.StopDrains | workerpool/pool.go:160-176 | Stop returns only when stopped, cancelled and with nothing queued: each accepted task is started, held or discarded |
| WorkerPool.StopAlone | workerpool/pool.go:160-176 | the run of Stop's own steps from any state: it stops and cancels the pool, wakes the dispatcher, discards what is queued and returns |
| WorkerPool.SubmitReports | workerpool/pool.go:101-112 | Submit has returned true exactly as often as tasks were put in the queue |
| WorkerPool.LateSubmitRefused | workerpool/pool.go:101-104 | a Submit that has not looked at stopped before Stop set it never returns true |
| WorkerPool.ActiveBounded | workerpool/pool.go:62-92 | activeCount counts the live workers and never exceeds the greatest limit set |
| WorkerPool.LastResize | workerpool/pool.go:114-121 | after the last Resize to n, activeCount never exceeds the greater of n and one more than it was at that moment |
| WorkerPool.NeverStuck | workerpool/pool.go:62-92 | with positive limits, whenever the dispatcher waits with no wake-up pending some worker has yet to signal under the lock |
| WorkerPool.PoolProgress | workerpool/pool.go:50-98 | in every reachable state with something to do the dispatcher or a worker can step |
| WorkerPool.SleepEnds | workerpool/pool.go:62-92 | while the dispatcher sleeps unwoken a worker can step, each worker step uses up one of finitely many, and no other step adds any |
| WorkerPool.StepsRunOut | workerpool/pool.go:50-98 | each step of the dispatcher or a worker uses up some of a bound that only clients can raise |
| WorkerPool.RestMeansDone | workerpool/pool.go:50-98 | when neither can move, every worker has finished and nobody is active; until Stop every accepted task has then been started, in order, and has ended |
| WorkerPool.StoppedIsSeen | workerpool/pool.go:59-79 | wherever the dispatcher looks at `stopped` and finds it set, it drops its task and leaves |
| WorkerPool.StuckOnlyByTruncation | workerpool/pool.go:28-37 | a pool made for one size and resized to others can get stuck if and only if one of these numbers wraps to a limit below one in int32, which is decided by the number modulo 2^32 |
| WorkerPool.HalfRangeSticks | workerpool/pool.go:28-37 | a pool made for 2^31 workers gets stuck on its first task |
| WorkerPool.BroadcastSuffices | workerpool/pool.go:114-121 | after the broadcast of a Resize, and until the next Resize, the dispatcher never sleeps over room with no signal on its way, if and only if the broadcast did not find it past its comparison, with room, and not yet on the wait list |
| WorkerPool.MissedWakeUp | workerpool/pool.go:114-121 | a run from New in which that happens: Resize returns and the dispatcher falls asleep although there is room |
| FileWriter.DeadlockFree | filewriter/writer.go:128-251 | with any number of AppendLine, SetDir and Close calls, every reachable state with an unfinished call has an enabled step |
| FileWriter.FindMove | filewriter/writer.go:321-354 | the chain of mutex holders climbs the key order and ends at a thread that can move |
| FileWriter.StepsRunOut | filewriter/writer.go:128-251 | each step brings the calls there are nearer to their ends in a well-founded order: with deadlock freedom, every AppendLine, SetDir and Close call returns |
| FileWriter.LocksKept | filewriter/writer.go:239-251 | every step keeps mutex ownership, known keys and sorted snapshots; no key loses its mutex, and a held mutex stays with its holder until the holder gives it back |
| FileWriter.MutualExclusion | filewriter/writer.go:135-148 | two AppendLine calls for one key are never in the critical section together |
| FileWriter.HandleLifecycle | filewriter/writer.go:196-273 | cached handles were opened under the current directory; a file is taken at most once and closed at most once after that; no two calls hold the same file; none is lost |
| FileWriter.DirectoryHistory | filewriter/writer.go:210-237 | the directory is the first one until a SetDir call has set another, and then that of the last one that did |
| FileWriter.SetDirSwitches | filewriter/writer.go:210-237 | a SetDir call that returns without an error has set its directory |
| FileWriter.WritesGoToDirectory | filewriter/writer.go:253-273 | the file an AppendLine call gets is that of its key under the current directory; it gets none if and only if the writer is closed or the file is new and cannot be opened |
| FileWriter.AppendWritesOnce | filewriter/writer.go:128-149 | an AppendLine call that returns without an error has written one line, to a file of its key; one that returns an error has written nothing |
| FileWriter.ClosedMapEmpty | filewriter/writer.go:188-207 | once the Close call that closed the writer has returned the map is empty in every later state |
| FileWriter.CloseLeavesEmptyMap | filewriter/writer.go:188-207 | a Close call about to look at `closed` leaves an empty map in every state after its return if and only if the writer is still open or the map is empty already |
| FileWriter.SecondCloseReturnsEarly | filewriter/writer.go:189-193 | a run from New in which a second Close returns while a handle is still cached |
| FileWriter.WriteMeetsClosedFile | filewriter/writer.go:196-236 | when a call is about to take the files, a write in progress can find its file closed by that call if and only if some thread is writing a cached file whose key is not in the call's snapshot |
| FileWriter.CoveredSnapshotIsSafe | filewriter/writer.go:221-236 | if every known key is in the snapshot nobody is writing at that moment, and no write meets a file that call closed |
| FileWriter.ClosedFileUncovered | filewriter/writer.go:196-206 | whenever a write in progress has its file closed, the closing call had not locked its key |
| FileWriter.UncoveredWrite | filewriter/writer.go:221-236 | a run from New in which a write meets a closed file, with a key first used after the snapshot |
| UploadLength.UploadReader.Read | httpclienttls/upload.go:32-44 | one Read changes the remaining length and the error as specified |
| UploadLength.LengthEnforced | httpclienttls/upload.go:32-44 | for every body read to its first error: more bytes than announced are an excess, an end before all of them an unexpected end, anything else is the raw body's error |
| UploadLength.LengthUnchecked | httpclienttls/upload.go:32-44 | without a positive length the raw body's error is passed on |
| UploadClose.ClosedOnce | httpclienttls/upload.go:46-58 | under any interleaving the raw body is closed at most once, exactly once before any Close returns, and every Close returns that close's result |
| UploadClose.NoLateCallback | httpclienttls/upload.go:23-30 | the callback runs only if the context has ended, and has ended itself when a Close has returned |
| UploadClose.ResultIsRawClose | httpclienttls/upload.go:46-48 | the stored error is the result of the raw close, and stays |
| UploadClose.WaitIsFounded | httpclienttls/upload.go:50-56 | Close waits on done only when the callback was started, and the callback can then move |
| UploadClose.CloseProgress | httpclienttls/upload.go:23-58 | while a Close call has not returned some thread can move |
| UploadClose.StepsRunOut | httpclienttls/upload.go:23-58 | each step of the callback or of a Close call uses up some of a bound that only new calls raise: with progress, every Close returns |
| UploadClose.CancelCloses | httpclienttls/upload.go:23-30 | the run in which a cancelled context closes the body without any Close |
| UploadClose.CloseAlone | httpclienttls/upload.go:50-58 | the run in which a Close alone stops the callback, closes the body and returns the result |
| StreamBody.ClosedOnce | httpclienttls/stream.go:154-164 | cleanup and raw close happen at most once and before any Close returns |
| StreamBody.RawReadExclusive | httpclienttls/stream.go:119-164 | a raw read never overlaps or follows a raw close and never follows an error a Read returned |
| StreamBody.DeliveredPrefix | httpclienttls/stream.go:119-152 | between reads the bytes delivered are exactly those read from the raw stream |
| StreamBody.TimerBelongsToRead | httpclienttls/stream.go:22-36 | an idle timer can fire or cancel only during the read that armed it |
| StreamBody.FailureSticks | httpclienttls/stream.go:129-141 | once a Read has failed, every later one that asks for bytes fails without touching the raw stream |
| StreamBody.ReadLooks | httpclienttls/stream.go:129-141 | what a Read does once it has the mutex: nothing asked for, the stored failure, a closed body, a cancelled context, in this order, before it reads |
| StreamBody.CauseComesFirst | httpclienttls/stream.go:142-151 | the cause of a cancellation replaces the raw stream's error, and what fails a read is stored |
| StreamBody.CauseAndFailureStay | httpclienttls/stream.go:129-151 | the first cause and the first failure stay in every later state, and an idle timeout is a cause only once its timer's callback has ended |
| StreamBody.Progress | httpclienttls/stream.go:119-164 | while a Read or Close call is unfinished some thread can move |
| StreamBody.StepsRunOut | httpclienttls/stream.go:119-164 | each step of a call or a timer uses up some of a bound that only new calls raise: with progress, every Read and Close returns |
| StreamBody.ReadReturns | httpclienttls/stream.go:119-127 | a Read returns without an error, or with one after its own Close has returned and the body is closed; in both cases with the bytes of its raw read |
| StreamBody.ReadGoesOn | httpclienttls/stream.go:119-152 | from step to step a Read keeps what it was asked for, and then the bytes and the error of its raw read |
| StreamBody.ReadAlone | httpclienttls/stream.go:119-152 | the run of a Read without interference: it stops its timer and gives out the bytes that came |
| StreamBody.FailsAlone | httpclienttls/stream.go:119-152 | the run of a Read whose raw read fails: it gives out the bytes and that error, keeps the error and closes the body |
| StreamBody.IdleTimeoutRun | httpclienttls/stream.go:22-36 | the run in which a Read meets an idle timeout, waits for the timer, fails with the timeout and closes the body |
| Urls.OriginsTold | httpclienttls/request.go:512-529 | letter case and a final dot of the host and a default port spelled out do not change an origin |
| Redirect.DoStream | httpclienttls/request.go:178-395 | every run is complete: it sends exactly the requests of the rounds, at most max(0, maxRedirects) + 1, leaves no body with DoStream on any path, and returns the last response if and only if that is not a redirect to follow |
| Redirect.FirstRequest | httpclienttls/request.go:282-317 | the first request has the caller's method, target, body, headers, cookies and announced length |
| Redirect.FirstRequestMade | httpclienttls/request.go:191-317 | it is made if and only if options, target and announced length are in order |
| Redirect.NextRequestMade | httpclienttls/request.go:345-390 | a request is followed by another if and only if its answer is a 301, 302, 303, 307 or 308 with a target while redirects are left, the next request can be built, and a body that 307 or 308 keeps can be had again |
| Redirect.NextRequestUrl | httpclienttls/request.go:357-391 | each further request goes where the redirect before it points |
| Redirect.RunResult | httpclienttls/request.go:345-356 | the caller gets the last response, unless that is a redirect to follow; a 307 or 308 whose body cannot be had again counts as the last response |
| Redirect.ReaderSentOnce | httpclienttls/request.go:345-355 | a body without GetBody goes out in the first request only |
| Redirect.PreservingRedirects | httpclienttls/request.go:489-498 | through any number of 307 and 308 hops the method, content type and bytes stay the same, and the announced length if there is a body |
| Redirect.LengthsAnnounced | httpclienttls/request.go:304-317 | every request of a chain that carries a body from memory carries the caller's bytes and announces their true length, unless the caller forced 0 or -1 |
| Redirect.DroppingRedirects | httpclienttls/request.go:364-368 | after 301, 302 or 303 every later request is a bodyless GET, or HEAD if it was one, without Content-Type and of length 0 |
| Redirect.BodyFates | httpclienttls/request.go:181-186 | exactly which bodies were opened in a run, and who has each in the end: with the transport if its request was sent, closed by DoStream if not |
| Redirect.CredentialsStayHome | httpclienttls/request.go:334-383 | Authorization, Cookie and explicit cookies go out if and only if every request so far went to the first origin; explicit cookies also lose every name a response has set |
| Redirect.RefererOfChain | httpclienttls/request.go:531-541 | the Referer of a redirected request is the URL requested before it, absent on the way from https to http, whatever the browser headers did |
| FetchMetadata.ChainSite | httpclienttls/browser_headers.go:228-237 | remembering one site per chain gives the worst relation of the source to all URLs so far |
| FetchMetadata.SitesTold | httpclienttls/browser_headers.go:106-125 | literal URLs: same-origin by scheme, host and port, same-site by scheme and registrable domain whatever the port, cross-site otherwise |
| FetchMetadata.SitesUntold | httpclienttls/browser_headers.go:106-116 | no source is none for navigations and absent otherwise; an unusable source or target is cross-site |
| FetchMetadata.WorstBounds | httpclienttls/browser_headers.go:228-237 | no visited URL stands worse than the remembered site |
| FetchMetadata.WorstAttained | httpclienttls/browser_headers.go:228-237 | some visited URL stands exactly as the remembered site says |
| Redirect.FetchSiteOfChain | httpclienttls/browser_headers.go:127-251 | the generated Sec-Fetch-Site of every request is that worst relation for the original source, none or absent without one, only for trustworthy targets (https, or http to the local machine) and independent of the rewritten Referer; a caller's own header is sent unchanged |
| Redirect.SourceOfMode | httpclienttls/browser_headers.go:98-104 | Referer is the source for pages and scripts, Origin before Referer for fetches |
| Redirect.SiteUntouched | httpclienttls/request.go:384-386 | without browser headers the caller's Sec-Fetch-Site is never touched |
| Urls.TrustByScheme | httpclienttls/browser_headers.go:127-137 | https is trustworthy anywhere, and nothing but https and http is |
| Urls.TrustLocalNames | httpclienttls/browser_headers.go:127-139 | http is trustworthy at localhost and below it |
| Urls.TrustOtherNames | httpclienttls/browser_headers.go:138-139 | elsewhere http is trustworthy only at a loopback address |
| Redirect.VisitedAreSent | httpclienttls/request.go:391-393 | the visited URLs are those of the requests sent |
| Pop3.Client.GetLine | pop3client/client.go:379-400 | one line with its wire length, a line over the limit refused, the stream advanced past it |
| Pop3.Client.GetLongResp | pop3client/client.go:353-377 | the loop reads the specified response and leaves the specified rest of the stream |
| Pop3.LineLimit | pop3client/client.go:388-390 | a line of up to 102400 bytes on the wire is read, a longer one refused |
| Pop3.BareLineFeed | pop3client/client.go:396-398 | a line may end in LF alone |
| Pop3.NoLine | pop3client/client.go:384-387 | a stream that ends before a line does is an error |
| Pop3.ResponsesTold | pop3client/client.go:339-377 | literal bytes: a stuffed dot behind "+OK" reads as a dot, "-ERR" is an error |
| Pop3.RoundTrip | pop3client/client.go:359-399 | reading the dot-stuffed encoding gives the lines back if and only if none contains LF, starts with CR or exceeds the limit on the wire |
| Pop3.CarriageReturnEnds | pop3client/client.go:359-398 | the literal line CR and dot is taken for the end of the response, and the true end is left in the stream |
| Pop3.DecodesTransparent | pop3client/client.go:359-376 | such lines come with octets equal to the sum of their lengths plus two each, and the stream is left just after the lone dot |
| Pop3.ResponseRoundTrip | pop3client/client.go:339-377 | the same for a whole response behind a positive status line |
| UseCounter.UseCountExact | proxypool/proxy_item.go:86-99 | without Reset or a lowered limit the counter is the number of calls that returned true, stays within the limit, and a call refuses only at the limit |
| UseCounter.NeverAboveMost | proxypool/proxy_item.go:86-99 | even with Reset and lowered limits the counter never passes the greatest limit there was |
| UseCounter.CallAlone | proxypool/proxy_item.go:86-99 | a call that nobody interferes with returns true and counts if and only if a use is left |
| UseCounter.RetryMeansChange | proxypool/proxy_item.go:92-97 | a call starts over only because another one has changed the counter since it looked |
| ProxyPool.Pool.AddProxy | proxypool/pool.go:216-231 | adds unless the key is there; keys stay unique |
| ProxyPool.Pool.Remove | proxypool/pool.go:333-345 | removes the item with the key if and only if there is one; the key is then absent |
| ProxyPool.Pool.Cleanup | proxypool/pool.go:305-323 | keeps exactly the available items in order and counts the removed ones |
| ProxyPool.AvailableParts | proxypool/pool.go:305-313 | a clean-up treats each item by itself and keeps the order |
| ProxyPool.AvailableOne | proxypool/proxy_item.go:62-69 | an item is kept if and only if it has not expired and has uses left |
| ProxyPool.Pool.Refresh | proxypool/pool.go:200-212 | adds each fetched address once and counts the additions |
| ProxyPool.FetchedAdded | proxypool/pool.go:200-231 | a refresh keeps what there is and adds each missing address once, unused and with the pool's limit and expiry |
| ProxyPool.Pool.Meanwhile | proxypool/pool.go:216-231 | any sequence of additions, removals, clean-ups, clears and picks by other callers keeps the keys unique and has the effect of its operations in order |
| ProxyPool.TakesAway | proxypool/pool.go:305-345 | what clearing, removing and cleaning up leave, item by item |
| ProxyPool.UsesOrAdds | proxypool/pool.go:216-279 | what another caller's Get and an addition change, item by item |
| ProxyPool.Pool.Get | proxypool/pool.go:239-284 | cleans up; an empty pool is refreshed without the lock, with anything other callers do in between; a small one starts a background refresh; then the available item whose turn it is is used, unless rivals have used it up |
| ProxyPool.HandsOut | proxypool/pool.go:256-284 | what Get hands out had not expired and had uses left, with this use counted within its limit; it hands out nothing only if there is no such item or rivals used up the one whose turn it was |
| ProxyPool.GetRefreshes | proxypool/pool.go:239-279 | Get refreshes a pool if and only if nothing in it can be used |
| ProxyPool.TurnPasses | proxypool/pool.go:268-279 | the turn passes on if and only if there is something to choose from |
| ProxyPool.RefreshAlone | proxypool/pool.go:200-212 | if nobody comes in between, that refresh adds each fetched address once |
| ProxyPool.RoundRobinFair | proxypool/pool.go:268-279 | over k successive Gets with a stable set of n available items, however the clock moves, each item is used at least floor(k/n) and at most ceil(k/n) times |

## Left out

- WorkerPool.Apply: the shared object is a value stepped by single atomic operations, not a class updated in place, because methods would hide the interleavings the theorems are about; the same holds for FileWriter, UploadClose, StreamBody and UseCounter.
- WorkerPool.SleepEnds: tasks are taken to terminate; nothing is claimed about fairness, nor that IsIdle means that all tasks are done.
- ProxyPool.Pool.Get: items are values, so a proxy handed out and its copy in the pool are not one object; of a background refresh only the start is modelled here, its additions are those of other callers; each pass over the items reads the clock once, settings do not change, and `roundRobinIdx` does not overflow.
- StreamBody.Progress: a raw read is taken to return, as it does when its context is cancelled; the error of the raw close is not modelled.
- UploadClose.CloseProgress: raw.Close is taken to return.
- Sweep.BuildSweep: fee rates are reals, so IEEE rounding is not modelled; signing, script checks, dust policy and size estimates are parameters; broadcasting comes after the model ends.
- PrevOutputs.VerifySelected: the API is a function of the transaction id; an API that answers one id differently over time is not modelled.
- Redirect.DoStream: the jar's own cookies, header order, timeouts and the other browser headers are not modelled; URL parsing and reference resolution are inputs; userinfo and fragments of the Referer are dropped with the URL fields not modelled.
- FetchMetadata.SiteOf: case folding is ASCII only; the public suffix list and the test for loopback addresses are parameters.
- Decimal.TrimSpace: texts are sequences of characters, so invalid UTF-8 is not modelled; nil amounts are not modelled either.
- NewUnsignedTransaction, coin change, fee estimates from the API and confirmation polling: foreign code or network calls.
- CopyTo, parseUnitsUint64, singletons, setters, option cloning, profiles, logger, websocket, proxy parsers, MIME parsing and httpclient: easy members around library calls.
- FileWriter.AppendWritesOnce: a write succeeds as a whole or not at all; the content of lines, file names and the creation of directories are not modelled, nor is Dir, which reads without the lock.
