# Wavonyx, verified

A Dafny model of the parts of Wavonyx (a WhatsApp gateway written in Go) where state, concurrency or
list juggling make the code hard to trust by reading it, with proofs about every input, every run and
every interleaving. `dafny verify dfyconfig.toml` checks the whole project.

## What is modelled

- **Sending** (`SendJob`, `SendPipeline`, `SendInvariants`, `SendTheorems`, `SendLog`, `SendCallers`,
  `SendProgress`). Callers put jobs on a bounded
  channel without blocking; one worker marks the chat read, shows the typing indicator in slices, sends,
  reports on a channel of capacity one and waits a minimum gap; callers give up and shutdown races with all
  of it. One step of the machine is one critical section, channel operation, client call or timer. The
  worker's own code (`Process`, `SimulateTyping`) is proved to take exactly the actions of a `Visit`, and
  the machine's trace is proved to be one such visit after another, each the one that what the worker met
  along the run calls for (`SendLog`).
- **Webhooks** (`Delivery`, `Dispatcher`). A bounded queue with drop counting, a close-and-drain protocol,
  workers with bounded retries, and backoff on 64-bit integers that wrap (`Int64`).
- **Inbound** (`Messages`, `RingBuffer`, `RingHistory`, `ReadReceipts`, `Watch`). The circular buffer edited
  in place against a plain history; the unread map against the event history; the polling client against
  the live buffer. The three compose: what the client prints is stated in terms of the events that arrived.
- **Typing delays** (`Typing`, `NaturalTyping`). Normalisation, overrides, clamps, and the word scanner, for
  arbitrary random draws; fractions are reals, sums wrap on 64 bits.
- **Pairing** (`Pairing`). Status, client and pairing code as a fold over critical sections; the loop that
  reads the pairing channel, with other goroutines' sections running in between.
- **Command line** (`Flags`, `FlagOrder`, `Commands`). Moving flags in front of positionals against Go's
  parser and against a parser that takes flags anywhere; finding the subcommand behind global flags.
- **Addresses** (`Recipient`). Normalising what a caller typed, and reading the phone number back.
- **Sessions** (`OneSession`, `Conflicts`, `Sessions`, `Manager`). The map in memory against the table in
  the database, with any operations on any ids interleaved section by section and restarts at any point;
  which operations conflict is characterised exactly.

Objects whose methods change fields are classes (`Ring`, `Inbox`, `Dispatcher`, `Account`, `Registry`,
`Manager`); each method is proved against a function of the old state, and the theorems are about those
functions. In every step machine a label that is not enabled changes nothing, so results about all label
sequences are results about all runs.

## Where code and words differ

- The comment and the documentation of the backoff promise a jitter of plus or minus 50%. The code only ever
  shortens: the delay lies between half the doubled delay and that delay (`Delivery.BackoffInRange`).
- Doubling on 64 bits can wrap to a small positive delay. It is the intended delay exactly when it does not
  (`Delivery.CeilingIsDoubledIff`), and a later ceiling is below an earlier one exactly when some shift
  wraps to one below the maximum (`Delivery.NeverShrinksIff`).
- An edit changes one buffered message, the one in the lowest slot. If a message was delivered twice the
  newer copy keeps the old text (`RingHistory.DuplicateKeepsOldText`); a new text reaches every copy
  exactly when there is at most one (`RingHistory.EditReachesAllIffSingle`).
- Flags are meant to go anywhere on the command line. A last flag without its value takes the first
  positional, and the `--` separator is dropped, so a flag-like positional behind it can be parsed as a flag.
  Reordering keeps the meaning exactly when neither happens (`Flags.MeaningKeptIff`, `Flags.Safe`).
- Jobs still queued when the worker leaves never get an outcome, and only those
  (`SendTheorems.LeftBehind`, `SendTheorems.ExitedOutcomeIff`).
- A session can count as connected and have no client. Exactly two sections bring that about
  (`Pairing.LosesClientIff`); `Pairing.ConnectedHasClientIff` says which runs end in it.
- Overlapping operations on one id can leave table and map at odds for good: a Create while a Delete, a
  device to be saved or an update with another webhook is under way; two updates with different webhooks;
  a connection that learns a new device while another is being saved. The last two do no harm when the
  session is being deleted. All other overlaps, such as an update during a connection, are harmless
  (`Sessions.ApartIff`). A Create over a Delete leaves a row the next start brings back
  (`Sessions.OrphanRow`).
- The watching client loses an arrival for good when more than a window of messages comes in before its next
  successful poll (`Watch.PrintedIffCaught`).

## Model

| member | source | states |
|---|---|---|
| SendJob.SimulateTyping | session.go:706-733 | the loop succeeds iff every slice's wait ends by its timer; the actions are then a whole simulation closed by one clearing, and otherwise whole slices up to the first interruption, closed by one clearing |
| SendJob.VisitIn | session.go:642-701 | a job whose caller is gone, or found offline, is not touched; it is delivered iff caller, connection and every slice's wait allow it |
| SendJob.Process | session.go:642-701 | the code's client actions and its one outcome are exactly those of that visit |
| SendJob.TypedFacts | session.go:706-733 | an uninterrupted simulation sleeps exactly the delay, in slices of at most 8 seconds, and shows the indicator ceil(delay / 8s) times |
| SendJob.VisitShaped | session.go:657-688 | receipts first, then at most one run of the indicator closed by exactly one clearing, then at most one send, whether interrupted or not |
| SendJob.VisitSends | session.go:684-700 | at most one send per job; success with an id iff that send returned that id; failure iff that send failed |
| SendJob.OutcomeMeans | session.go:642-701 | what a caller is told, by what happened: gone, not connected, typing cut short, send failed, or sent with that id |
| SendInvariants.AccountedStep | session.go:526-546 | every step keeps: accepted jobs are, in order, those served, the one in hand and those queued, each once; the queue never exceeds its capacity |
| SendInvariants.KnownStep | session.go:526-546 | every step keeps: a caller waits, gave up or has an outcome iff its job was accepted |
| SendInvariants.SoFarGrows | session.go:657-733 | each worker step adds to the client's history exactly what brings it to the next stage of the visit |
| SendInvariants.TracedStep | session.go:623-640 | every step keeps: the client's whole history is complete visits one after another and a prefix of the current one |
| SendInvariants.RepliedStep | session.go:526-546 | every step keeps: the reply channel of a served job holds its one outcome until the caller has it, and that of an unserved job is empty |
| SendInvariants.PacedStep | session.go:623-640 | every step keeps the minimum gap between the end of one job and the start of the next |
| SendInvariants.Invariants | session.go:526-733 | all of these hold in every state any interleaving of callers, worker, clock and shutdown reaches |
| SendTheorems.InOrder | session.go:623-640 | client calls for different jobs never interleave and come in the order of acceptance |
| SendTheorems.ServedActions | session.go:642-701 | the client calls for a served job are those of its visit, no more and no fewer |
| SendTheorems.ServedShaped | session.go:657-733 | in every run the calls for each served job have the shape of a visit |
| SendTheorems.UntouchedActions | session.go:623-640 | a job neither served nor in hand has caused no client call |
| SendTheorems.OutcomeIsTrue | session.go:684-700 | a caller that got an outcome got its job's: success with an id iff that job's only send returned that id |
| SendTheorems.ReportNeverBlocks | session.go:532 | whenever the worker is about to report there is room on the reply channel |
| SendTheorems.GapRespected | session.go:631-637 | each job starts at least the gap after the previous one ended, however it ended |
| SendTheorems.CancelledNeverSent | session.go:643-646 | a job whose caller was gone before the worker looked at it causes no client call, then or ever |
| SendTheorems.RefusedNeverSent | session.go:527-539 | a job refused for want of a connection or of room causes no client call, ever |
| SendTheorems.SilentAfterStop | session.go:91-104 | once stop has returned the worker makes no client call and reports nothing |
| SendTheorems.LeftBehind | session.go:626-628 | a job queued when the worker leaves never gets an outcome; its caller can only wait or give up |
| SendTheorems.ExitedOutcomeIff | session.go:626-640 | once the worker has left, an accepted job has its outcome iff it is not in the queue |
| SendLog.VisitAsSeen | session.go:642-701 | in every run the visit of a served job is the one dictated by what the labels of the run told the worker about it: caller gone or not, connection, receipts due, delay, each wait's end, the client's answer |
| SendLog.OutcomeAsSeen | session.go:642-701 | so are the client calls made for a job and the outcome its caller gets |
| SendLog.ConnectionDecides | session.go:647-655 | a worker that reads no connection makes no client call for the job, in any continuation, and its caller can only learn that it is not connected; one that reads a connection goes on with the visit |
| SendCallers.CheckDecides | session.go:526-530 | a caller is refused at once iff the session is not connected |
| SendCallers.SubmitDecides | session.go:531-539 | a job is accepted, behind all accepted before, iff the queue has room |
| SendCallers.CancelInTime | session.go:540-546 | a caller that gives up before the worker has begun its job keeps it from the client for good |
| SendCallers.StopWorks | session.go:91-104 | in a fair run a stop makes the worker leave for good, and stop may return |
| SendCallers.DelayRespected | session.go:706-733 | in every run a message is sent no sooner than its typing delay after its job was begun |
| SendTheorems.WorkProgresses | session.go:623-733 | each worker step lowers (queued jobs, stage, work left in the stage); nothing but a submission raises it |
| SendTheorems.NeverStuck | session.go:623-733 | with work to do the worker always has a step, at latest when its timer is due |
| SendTheorems.CanFinish | session.go:623-733 | from every reachable state whose worker has not left there is a continuation of time and worker steps alone that brings every accepted job to its outcome |
| SendTheorems.RestMeansServed | session.go:623-640 | a run that can go no further with its worker alive has answered every accepted job |
| SendProgress.Settles | session.go:623-733 | in every endless run without submissions, whatever callers, clock, client and phone do, the worker takes only finitely many steps |
| SendProgress.FairRunsSettle | session.go:623-733 | if time passes and a worker that can go on is not passed over for ever, such a run ends with the worker gone, or with nothing to do and no stop asked for |
| SendProgress.FairRunsAnswer | session.go:526-546 | without a stop, every accepted job then has its outcome |
| SendProgress.FairStopReturns | session.go:91-104 | after a stop the worker leaves, and from then on stop can return |
| Delivery.BackoffInRange | webhook.go:261-278 | for positive base and maximum the delay lies between half the ceiling and the ceiling, and the ceiling in (0, max], whatever wraps |
| Delivery.BackoffReaches | webhook.go:273-277 | the delays that can be drawn are exactly those from half the ceiling to twice that half |
| Delivery.CeilingDoubles | webhook.go:261-272 | without overflow the first ceiling is the base and each of the next twelve is twice the last, up to the maximum |
| Delivery.CeilingIsDoubledIff | webhook.go:261-278 | the ceiling is the doubled delay iff the shift fits or does not wrap to a positive value below the maximum |
| Delivery.NeverShrinksIff | webhook.go:261-278 | for every base and maximum, no later ceiling is below an earlier one iff no shift up to 12 wraps to a positive value below the maximum |
| Delivery.BackoffShrinksOnOverflow | webhook.go:261-278 | an instance: attempt 12 has a ceiling of 4096ns, far below that of attempt 10 |
| Delivery.BackoffGrows | webhook.go:261-278 | without overflow the ceilings are the doubled delays, never fall, and are constant from the twelfth on |
| Delivery.Deliver | webhook.go:175-203 | the attempts, the pauses between them and the outcome of every script of answers: transport errors, 429 and codes of 500 and above are tried again until the attempts run out, 200 to 299 delivers, anything else refuses; a cancellation ends it at the first look that sees it |
| Delivery.AnswersDecide | webhook.go:175-236 | any finished delivery that was not cut short ends where the answers alone say, after that many attempts |
| Delivery.DelaysBounded | webhook.go:175-203 | the delays of one delivery total at most (Retries - 1) times the maximum |
| Dispatcher.WithDefaults | webhook.go:34-54 | every setting ends up positive: its own value if positive, else the default |
| Dispatcher.Dispatcher.Enqueue | webhook.go:109-140 | an event with neither URL, one that does not encode, or one after closing leaves everything as it was; otherwise it is queued for the session's URL, or the global one if that is empty, when there is room, and counted as dropped when not |
| Dispatcher.Dispatcher.Close | webhook.go:147-166 | closes once; only the first call is told to wait |
| Dispatcher.Dispatcher.Receive | webhook.go:168-173 | the oldest job with the URL it was accepted for, or word that there will be no more |
| Dispatcher.AccountedStep | webhook.go:109-173 | every step keeps: offered = disabled + unencodable + refused + dropped + accepted; accepted = queued + in flight + ended; the queue within its size and in order |
| Dispatcher.OrderlyStep | webhook.go:109-166 | every step keeps: nothing is sent on the closed channel nor is it closed twice; workers leave only when closed and empty |
| Dispatcher.ApartStep | webhook.go:168-203 | every step keeps: no job is in two hands, ends twice, or is both in hand and ended |
| Dispatcher.FaithfulStep | webhook.go:168-236 | every step keeps: the attempts made for a job are those of one delivery, under way or complete |
| Dispatcher.AnswerTells | webhook.go:175-236 | what an attempt does to its job, by the answer: delivered, refused, out of attempts, or another pause |
| Dispatcher.FifoStep | webhook.go:168-203 | with one worker all attempts for a job precede any for the next, in order of acceptance |
| Dispatcher.Invariants | webhook.go:109-236 | all of these hold in every state any interleaving of callers, workers, Close and timeouts reaches |
| Dispatcher.CloseDrains | webhook.go:147-166 | when the Close that closed returns, nothing is queued or in flight and every accepted job has ended |
| Dispatcher.EveryJobEnds | webhook.go:147-203 | by then each accepted job has ended exactly once, by a complete or a cancelled series of attempts |
| Dispatcher.NoTimeoutNoCancel | webhook.go:147-203 | unless the drain timeout fires, no delivery ends cancelled |
| Dispatcher.EveryJobSettled | webhook.go:147-203 | so without a timeout every accepted job is delivered, refused, or out of attempts when Close returns |
| Dispatcher.NotStuck | webhook.go:168-203 | a closed dispatcher with a worker alive always has a worker step |
| Dispatcher.DrainBound | webhook.go:147-203 | once closed, no run takes more worker steps than there was work left when it closed |
| Dispatcher.TimeoutEndsAttempts | webhook.go:147-183 | once the drain timeout has fired, however the run goes on, only the attempts in flight are still made |
| RingBuffer.Ring.constructor | ring.go:18-23 | an empty buffer, of capacity one if none was asked for |
| RingBuffer.Ring.Append | ring.go:36-44 | the view becomes the last `cap` of the old items and the new one |
| RingBuffer.Ring.Update | ring.go:48-61 | exactly the item in the lowest matching slot gets the new body, nothing else changes; found iff there is one; unwritten slots are never matched |
| RingBuffer.Ring.Recent | ring.go:66-78 | the newest items in reverse order, as many as asked for and held |
| RingBuffer.EditIndexFinds | ring.go:48-61 | an edit finds nothing iff no buffered message has that id |
| RingHistory.EditReachesAllIff | ring.go:48-61 | one edit amends every copy of its target iff the copies it does not pick already carry the new body |
| RingHistory.EditReachesAllIffSingle | ring.go:48-61 | while no copy carries the new body, one edit amends every copy iff there is at most one |
| RingHistory.DuplicateKeepsOldText | ring.go:48-61 | after a redelivery and an edit the newer copy has the old text, for any message |
| RingHistory.BufferIsHistory | session.go:355-374 | after any run with unambiguous edits the buffer is the last `cap` entries of the full history with all edits applied |
| RingHistory.DistinctIsUnambiguous | session.go:355-374 | distinct message ids make every edit unambiguous |
| RingHistory.HistoryEntry | session.go:355-374 | the k-th history entry is the k-th admitted arrival with the edits that followed it |
| RingHistory.LastEditWins | session.go:366-371 | its content is that of the last edit after it, or its own |
| RingHistory.RecentAfterRun | ring.go:66-78 | what Recent returns after any such run: the newest arrivals in reverse, at most `cap`, each with its last edit |
| RingHistory.RecentIsPrefix | ring.go:66-78 | a positive limit returns a prefix of the unlimited answer |
| ReadReceipts.Inbox.OnMessage | session.go:355-381 | buffer and unread map change as the event says; own messages, when not asked for, change nothing and are not handed on; an incoming message with an id becomes the latest of its chat and sender |
| ReadReceipts.Inbox.MarkChatRead | session.go:400-426 | takes out, and issues exactly one receipt for each of, the entries of the chat written to and, if the address has a number, those from that number; without a number, those of the chat alone |
| ReadReceipts.UnreadIsPending | session.go:355-426 | after any history the map holds exactly the tracked messages neither replaced nor matched by a reply since |
| ReadReceipts.ReplyTakes | session.go:400-426 | a reply removes the entries of exactly the messages it acknowledges |
| ReadReceipts.ReceiptedOnce | session.go:400-426 | over a whole run no message is acknowledged by two replies, whether or not the receipt got through |
| ReadReceipts.PhoneReachesGroups | session.go:400-413 | for any map, a reply to a phone number, with or without a device, leaves exactly the messages of other chats from other numbers, groups included |
| ReadReceipts.OthersReachTheirChat | session.go:400-413 | for any map, a reply to an address of another server, or without a number, leaves exactly the messages of other chats |
| ReadReceipts.NoAddressReachesItsChat | session.go:400-413 | so does one to a text without an `@` |
| Watch.RunWatch | cmd/wavonyx/cmd_message.go:82-132 | the loop prints what the fold over its answers prints, failed polls changing nothing |
| Watch.WatchingIsPolling | cmd/wavonyx/cmd_message.go:103-131 | watching a live buffer is that loop over the buffer's answers |
| Watch.AnswerIsTail | ring.go:66-78 | a poll returns the last messages of the history, at most min(100, cap), newest first |
| Watch.WatchPrintsExpected | cmd/wavonyx/cmd_message.go:103-131 | with distinct ids exactly the expected messages are printed, in order, each as it stood when polled |
| Watch.ExpectedIncreasing | cmd/wavonyx/cmd_message.go:119-131 | printed arrivals strictly increase: arrival order, nothing twice |
| Watch.PrintedIffCaught | cmd/wavonyx/cmd_message.go:108-131 | an arrival is printed at a poll iff that is the first successful one after it and it is still in the window |
| Watch.KeepingUpPrintsAll | cmd/wavonyx/cmd_message.go:103-131 | with at most min(100, cap) arrivals between successful polls everything since seeding is printed, once |
| Typing.WithDefaults | typing/typing.go:129-155 | the result is usable (positive, bounds in order); what was set is kept, what was not takes its default, and a ceiling is raised to its floor only if below it; a usable configuration is left alone |
| Typing.Apply | typing/typing.go:104-124 | each setting a request brings replaces the configured one, exactly unless milliseconds overflow, and the floor never changes |
| Typing.Clamp | typing/typing.go:253-261 | unchanged when in range, the ceiling when above it, the floor when below it or when the ceiling is |
| NaturalTyping.ScanWord | typing/typing.go:201-212 | the inner loops find the end of the word, the end of the white space behind it, and whether that has a line break |
| NaturalTyping.TypeText | typing/typing.go:196-229 | the wrapped running sum is the wrapped sum, over the words of the text, of typing time and pause |
| NaturalTyping.TimeIsSum | typing/typing.go:200-229 | scanning from any place adds up exactly the words from there on |
| NaturalTyping.PausesAreGaps | typing/typing.go:222-228 | there are at most max(0, W - 1) pauses, and no other word takes pausing time |
| NaturalTyping.PauseDecided | typing/typing.go:222-229 | there is a pause after a word iff text follows, a sentence or line ends there and the roll is below 0.6; it lasts 350 to 900 milliseconds |
| NaturalTyping.TypingDecided | typing/typing.go:219-220 | a word takes its length at the drawn speed times 0.80 to 1.25, cut to the nanosecond |
| NaturalTyping.SpeedDrawn | typing/typing.go:190-193 | the speed is the drawn point between the configured bounds |
| NaturalTyping.ReadingReaches | typing/typing.go:196 | reading takes 300 to 900 whole milliseconds, each of which can be drawn |
| NaturalTyping.WordsAreMaximal | typing/typing.go:200-216 | the scan yields maximal runs of characters other than white space, each followed by the next, to the end of the text |
| NaturalTyping.LengthsAreTyped | typing/typing.go:200-216 | word lengths sum to the number of characters that are not white space |
| NaturalTyping.WordsAreBeginnings | typing/typing.go:200-216 | there are as many words as places where one begins, so each is visited once |
| NaturalTyping.NaturalBounds | typing/typing.go:185-232 | without overflow the delay lies between 300ms + 0.8 L / maxCPS - W ns and 900ms + 1.25 L / minCPS + 900ms per gap between words, for every draw |
| NaturalTyping.Duration | typing/typing.go:163-180 | off, unknown or empty gives zero; otherwise the result lies within the normalised clamps, wrap-around included |
| NaturalTyping.OverrideKeepsFloor | typing/typing.go:104-155 | an override cannot lower the floor nor leave a ceiling below it |
| Pairing.Account.LookupQR | session.go:171-180 | a code is returned iff there is one and its time is not up |
| Pairing.Account.LoginCheck | session.go:185-212 | which of the four answers login's first section gives |
| Pairing.Account.StoreCode | session.go:261-275 | the code and its expiry are stored and a connected session stays connected |
| Pairing.Account.MarkConnected | session.go:301-337 | both sections, with any other sections in between; without a client nothing happens |
| Pairing.Account.AbortPairing | session.go:429-442 | back to created only if pairing; code and client are gone |
| Pairing.Account.AttachDevice | session.go:445-464 | a missing device means logged out, a found one disconnected unless already connected |
| Pairing.Account.ConsumeQR | session.go:249-287 | exactly one value goes to the login that waits: for a first item that is a code, the code, expiry and whole seconds left of the state right after it, if there are any; else that there is none; the state is that of the items up to the first terminal one |
| Pairing.QROnOffer | session.go:161-180 | after any run a code is on offer iff the last change to the code was a non-empty one still in time; it is that one, with its expiry and the whole seconds left |
| Pairing.ConnectedIff | session.go:301-353 | after any run the session is connected iff some connect was not followed by a login, a loss, a log-out or a missing device |
| Pairing.ClientIff | session.go:214-223 | after any run the session has a client iff some login or attach was not followed by a failed pairing |
| Pairing.ConnectedHasClientIff | session.go:301-442 | after any run, connected implies a client iff a connect still standing comes with a client still held |
| Pairing.LosesClientIff | session.go:301-337 | one section breaks that iff it is the second half of markConnected without a client, or a failed pairing of a connected session |
| Pairing.AlwaysHasClientIff | session.go:301-442 | it holds all along a run iff no section of the run is one of those |
| Pairing.ConnectedWithoutClient | session.go:431-437 | a failed pairing after any run that ends connected leaves a connected session without a client |
| Pairing.TailLeavesNoMark | session.go:258-286 | items after a terminal one change no state |
| Pairing.LastItemTells | session.go:261-283 | what a code, a success or a failure read from the channel does to the state it finds, whatever codes and other sections came before |
| Pairing.ConsumedIsFold | session.go:249-287 | what the pairing loop leaves is a run of sections like any other, so the results about runs hold of it |
| Flags.PermuteFlags | cmd/wavonyx/output.go:70-104 | the loop returns the flags with their values, then the positionals |
| Flags.UsedIsWidth | cmd/wavonyx/output.go:82-102 | for every sound flag, reordering keeps together exactly what the parser consumes |
| Flags.ParsesName | cmd/wavonyx/output.go:82-102 | what the parser makes of `-name` and `--name`: a switch is true, a valued flag takes the next argument or lacks its value, others are help or undefined; reordering keeps a valued one with the next |
| Flags.ParsesInline | cmd/wavonyx/output.go:82-85 | what it makes of `-name=value` and `--name=value`; reordering leaves the next argument alone |
| Flags.AnyOrderIsFlagPart | cmd/wavonyx/output.go:70-104 | taking flags anywhere reads the flags as if alone and leaves exactly the positionals |
| Flags.FlagsThenRest | cmd/wavonyx/output.go:70-104 | what Go's parser makes of the reordered flags with anything behind them, errors included |
| Flags.MeaningKeptIff | cmd/wavonyx/output.go:70-104 | for every command line, parsing after reordering equals parsing in any order iff the command line is `Safe` |
| Flags.SwallowedParses | cmd/wavonyx/output.go:95-101 | a last flag without its value takes the first positional, and parsing then succeeds |
| Flags.MeaningLost | cmd/wavonyx/output.go:74-77 | two concrete command lines whose meaning changes |
| FlagOrder.StablePartition | cmd/wavonyx/output.go:70-104 | flags with their values, and positionals, each keep their order; nothing is added and only the separator is lost |
| FlagOrder.IsPermutation | cmd/wavonyx/output.go:70-104 | the result is a permutation of the arguments without the separator |
| FlagOrder.PermutedTwiceIff | cmd/wavonyx/output.go:70-104 | reordering again changes nothing iff the positionals, taken as a command line, have their flags in front and no separator among them; without a separator they are plain |
| Commands.SplitCommand | cmd/wavonyx/main.go:188-212 | the loop takes out the first argument that is no complete global flag and keeps the rest in order |
| Commands.SplitsAt | cmd/wavonyx/main.go:188-212 | behind complete global flags the next other argument is the command |
| Commands.GlobalWidths | cmd/wavonyx/main.go:194-206 | a global switch spans one argument, a valued flag two if more follow, anything with `=` one, others none, with one dash or two |
| Commands.ProgramGlobals | cmd/wavonyx/main.go:181-184 | the program's own global flags: url, key and timeout take a value, json does not, others are none |
| Commands.BothSpellings | cmd/wavonyx/main.go:177-212 | global flags before the command and right after it give the same command and arguments |
| Commands.DanglingGlobal | cmd/wavonyx/main.go:202-206 | a last global flag without its value becomes the command |
| Commands.URLFirst | cmd/wavonyx/main.go:177-184 | the documented pair of spellings, with the flags the program has |
| Recipient.NormalizePhone | jid.go:32-52 | accepts iff all characters are digits or one of `+ -.()`, with 7 to 15 digits of which the first is not 0; the address is then those digits |
| Recipient.DigitsOfChar | jid.go:32-45 | together with the digits of a concatenation this fixes the digits of any text |
| Recipient.DigitsOfConcat | jid.go:32-45 | the digits of a concatenation are those of its parts |
| Recipient.NormalizeRecipient | jid.go:21-30 | trims, then an address or a phone number, every error included |
| Recipient.AcceptedIsAddress | jid.go:21-69 | whatever is accepted is `user@server` with one `@`, a known server and no white space |
| Recipient.AddressAccepted | jid.go:54-69 | every such address is accepted as it stands |
| Recipient.AddressIff | jid.go:54-69 | `user@server` is such an address iff the user is non-empty and free of white space and the server is one of the three |
| Recipient.NormalizeIdempotent | jid.go:21-69 | normalising an accepted recipient again changes nothing |
| Recipient.PhoneRoundTrip | session.go:737-747 | the number read back from the address is the digits of what was typed |
| Recipient.SameAddressIffSameDigits | jid.go:32-52 | two accepted phone spellings give the same address iff they have the same digits |
| Recipient.PhoneOfUser | session.go:737-747 | an account's address has its number, with or without a device behind it |
| Recipient.NoPhoneInAddress | session.go:737-747 | addresses of other servers, and those whose user is empty or starts with a colon, have none |
| Recipient.PhoneTakenFrom | session.go:737-747 | conversely, an address that has a number is of that form |
| OneSession.BegunSound | manager.go:229-364 | an operation that does not conflict with those under way on its id keeps row and session related, field by field, as each half-done operation demands |
| OneSession.ContinuedSound | manager.go:229-364 | so does every later section of every operation |
| Conflicts.ConflictFails | manager.go:229-364 | for every conflicting operation, whatever else is under way, some order of the sections still to come ends with row and session at odds |
| Conflicts.SafeIff | manager.go:229-364 | so an operation may begin iff no order of the sections still to come ends in disagreement |
| Sessions.StepInv | manager.go:134-364 | every critical section of the whole machine, and a restart at any point, keeps every id sound, if conflicting operations do not overlap |
| Sessions.ApartIff | manager.go:229-364 | the same exact condition for the machine over all ids |
| Sessions.AgreeWhenIdle | manager.go:134-364 | after every run without conflicts table and map agree on every id nothing is under way on |
| Sessions.RestartAgrees | manager.go:134-170 | after a restart they agree whatever came before |
| Sessions.RestartRestores | manager.go:134-216 | an idle manager restarts into the same ids, devices and webhooks, creation times cut to the second, and the status the device store dictates |
| Sessions.OrphanRow | manager.go:237-364 | a Create overlapping a Delete of the same id leaves a row without a session, and a restart brings it back |
| Manager.Manager.Create | manager.go:229-259 | the order of the errors; success adds exactly one row and one session with that webhook, no device, status created and that time, in whole seconds in the row; a failure changes nothing while table and map have the same ids |
| Manager.Manager.UpdateWebhook | manager.go:264-281 | the order of the errors; success puts the webhook into both stores and changes nothing else, failure changes nothing |
| Manager.Manager.Delete | manager.go:346-364 | success leaves both stores without exactly that id; a missing session is reported and nothing changes |
| Manager.Manager.Connected | session.go:301-330 | the session is connected and has the device's identity if one is known, a change of it reaches the row, and no other session or row changes |
| Manager.Manager.Start | manager.go:134-170 | the loop loads one session per row, in whatever order: its device and webhook, its creation time, and created, disconnected or logged out as its device dictates |
| Manager.OperationsAgree | manager.go:229-364 | every whole operation leaves table and map in agreement |

## Left out

- The WhatsApp client library, its store and the adapter in `wa.go`: client calls are actions in a trace and their answers are arbitrary.
- HTTP, HMAC signing, URL parsing, JSON and SQL: an HTTP attempt is its status or failure, a URL or id is a flag saying whether it is valid, the table is a map, and database calls succeed.
- `parse.go`, `mediaref.go`, the fields of `message.go` no logic reads, `server/`, terminal output and QR rendering: field copying and plumbing.
- `editMessage`, `revokeMessage` and `downloadMedia` (session.go:551-609) call the client directly, outside the queue; the order of client calls proved here is that of the send worker.
- Typing delays inside the send machine are arbitrary; their bounds are proved in `NaturalTyping`. Text and media sends are one action.
- Random draws are arbitrary values in range, those of a word named by its number; floating-point rounding is not modelled, and a conversion to an integer out of range may give anything.
- Text is a sequence of characters: bytes that are not valid UTF-8 are not modelled.
- Flag values are not interpreted, so an invalid number is not an error here; the order of assignments is kept, so it would be met at the same place.
- Map iteration is in arbitrary order, so the order of receipts within one reply, and of rows on start, is not stated; `Manager.List`'s sorting is not modelled.
- Whether pairing ends: a failed connect, or a channel closed without a terminal item, leaves a session pairing.
- Sessions.StepInv: operations that conflict (`OneSession.Safe`) are excluded, since some order of their sections then ends in disagreement (`Sessions.ApartIff`); a client of a session no longer in the map is assumed silent.
- Watch.WatchPrintsExpected: message ids are distinct, as the client tells messages apart by nothing else.
- Flags.MeaningKeptIff: both parsers read the same flag definitions; the usage text and exit on error are not modelled.
