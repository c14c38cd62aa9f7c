# Stratum server: a verified model

A Dafny model of the parts of the stratum server where a mistake would be silent: how a mining job is built
from a block template, how the server and its connections start and stop, how a connection's bytes are shared
between goroutines, and how the share difficulty is retargeted. `dafny verify dfyconfig.toml` checks all of it.

## What is modelled

**Jobs** (`stratum/server/utils/coinbase.go`, used as in `main3.go`).
`Bytes`, `WireFormat`, `ScriptNumber` and `ByteOrder` hold the integer, string and hash encodings. `Coinbase`
has the script, the serialized transaction and the split around the extra nonce; `Merkle` the flat tree of
btcd's BuildMerkleTreeStore, the branch and the fold; `Job` puts them together. The hash is a parameter about
which nothing is assumed. The block's root is defined without a tree, by pairing up hashes and repeating a
lone last one, and the flat, nil-padded array is proved to compute it. Code that fills buffers or walks an
array is a method over arrays, proved against those definitions; a Go panic is the result `None`.
What is written is also read: `TxReader` and `ScriptReader` take the transaction and its coinbase script apart
field by field. `JobLaws` says what a job means with the hash function on concatenated bytes alone: the law of each
tree node and of each step of the miner's chain.

**Connection reader** (`ConnReader.dfy`, `ConnAnswers.dfy`). Each section under `mu` is a function of the guarded
fields and a method of the class `ConnReader` that computes it. The system around it has one step for each section,
socket read and broadcast, for any number of goroutines, and a run is any sequence of possible steps. `ConnAnswers`
says what every call answers in terms of what has happened before it.

**Lifecycle** (`Server.dfy`, `ServerProtocol.dfy`, `ServerEnds.dfy`, `ServerGuarantees.dfy`, `ServerSections.dfy`,
`ConnState.dfy`).
`Servers` has the critical sections as methods of the classes `Server`, `OnceCloseListener` and `Conn`.
`ServerProtocol` has all interleavings of Serve loops, Shutdown callers, connection goroutines and the clock. The
gaps of the code are visible in it: the shutdown flag goes up before `mu` is taken and can do so between
trackListener's check and its insertion; listeners are closed one by one while Accept goes on; a connection is
tracked before its state word is stored; a state word is read before the connection is closed; closeIdleConns and
numListeners are two sections. `ServerSections` proves that the steps of a section, taken one after the other, do
what the method does; `ServerEnds` says what is closed when a Serve or a connection has ended and how a Shutdown
polls; `ServerGuarantees` says exactly when each promise holds, over all continuations of all runs.

**Difficulty** (`RingBuffer.dfy`, `VarDiff.dfy`, `VarDiffAnswers.dfy`, `VarDiffRuns.dfy`). The ring of samples
refines "the newest samples since the last clear". The controller is a class whose call is proved equal to a
function of its state, and the results are about runs of any number of calls with the answers fed back: when it
retargets from its creation on, what it answers then, and whether the difficulty stays in range. Floating-point
numbers are reals; the clock is a parameter that shows positive seconds and does not go back.

## Where the code does not do what is said of it

Each is proved: an input or a run that shows it, and the exact condition.

- `client.go:193` builds the tree without the coinbase. Short of a hash collision, the branch it sends leads to
  the block's root if and only if all other transactions have one and the same hash and their number is not a
  power of two (`BranchWithoutCoinbaseRightIff`): never for two transactions (`TwoTransactionExample`), by accident
  for three alike (`ThreeAlikeExample`). For a lone coinbase the list is empty and BuildMerkleTreeStore panics.
  `conn.go:449` sends no branch, which is right for a lone coinbase only (`EmptyBranchOnlyForLoneCoinbase`). The
  theorems about branches are those of the call in `main3.go:82`.
- The branch entries are sent as `merkle.String()`, with the bytes in reverse. A miner has to turn them around;
  one that does not gets another root, unless every entry reads the same backwards (`LiteralBranchNeedsPalindromes`).
- `SplitCoinbase` assumes a transaction without witness; with one it takes the whole script for the nonce
  (`SubstitutionNeedsNoWitness`). It always writes a nonce length of 8 and never the script's length
  (`SubstitutionNeedsEightBytes`).
- `SerializeNumber` is the script builder's height push for every height but 0 (`SerializerIsCanonicalPush`).
- `ReverseByteOrder` is its own inverse on 32 bytes only (`SelfInverseOnlyOn32Bytes`).
- `CalcNextDiff` divides nanoseconds by seconds. Outside doubling mode slow shares then raise the difficulty
  (`SlowSharesRaiseDifficulty`, `CodedRange`). Some run leaves the range if and only if slow shares can raise it and
  the difficulty is above the minimum, or some mean counts as fast and so lifts it off the minimum
  (`RunLeavesRangeIff`). The configuration in `conn.go:344-355` uses its 30 percent as the factor 30, so that no mean
  counts as fast (`FastBranchDead`), and starts at the minimum: its difficulty never moves (`LiveDifficultyIsFrozen`).
  From every other difficulty in range the same configuration could leave it (`LiveConfigLeavesIff`). No code shown
  calls CalcNextDiff.
- `Serve` is documented to return ErrServerClosed after Shutdown was called. A loop in Accept does so from the
  moment a Shutdown takes `mu`, not from the call on (`OtherErrorAfterShutdownCall`); `VerdictIsSettledIff` gives the
  condition for every place of a Serve. A Serve called later is bound by the flag; one that has the done channel in
  its hand, for an error it would return, only by the closed channel.
- `Shutdown` is documented to wait for all connections and to interrupt no active one. After a quiet
  closeIdleConns it can succeed with a connection still tracked if and only if one was accepted and not yet tracked
  at that moment (`SuccessCanLeaveConnection`, `SuccessCanLeaveConnectionIff`). Between the read of a connection's
  word and its close, the close can hit the active state if and only if the connection's goroutine still serves it
  or has stored that state already (`ActiveConnectionCanBeClosed`, `ActiveConnectionCanBeClosedIff`).
- Two uses of `connReader` that its interface allows and no code shown makes: conn.go sets the limit on the
  goroutine that reads, and nothing calls startBackgroundRead or abortPendingRead. A limit set while a read is under
  way can be overrun if and only if that foreground read may bring more than the limit (`LimitDuringReadOverruns`,
  `LimitHoldsIff`). An abort that hits a foreground read leaves `aborted` up until the next background read ends,
  and that read's own timeout goes unnoticed (`StaleAbortHidesTimeout`, `FlagIsExact`, `TimeoutIsNoticedIff`).

## Model

| member | source | states |
|---|---|---|
| WireFormat.VarIntBytes | stratum/server/utils/coinbase.go:150-173 | the buffer written in each of the four size classes is the encoding that the reader below accepts |
| WireFormat.VarIntRoundTrip | stratum/server/utils/coinbase.go:150-173 | every uint64 is read back from its encoding, whatever follows, and the reader stops right behind it |
| WireFormat.VarIntCanonical | stratum/server/utils/coinbase.go:150-173 | the strict reader accepts no other form of a number |
| WireFormat.VarIntPrefixFree | stratum/server/utils/coinbase.go:150-173 | streams that start with two encodings are equal only if the numbers and the rests are |
| WireFormat.SerializeStringIsPrefixed | stratum/server/utils/coinbase.go:105-130 | in all four classes a string is the VarInt of its length followed by its bytes; the casts cut nothing off |
| WireFormat.StringsRoundTrip | stratum/server/utils/coinbase.go:105-130 | the concatenation of any list of serialized strings parses back to that list |
| WireFormat.StringsCanonical | stratum/server/utils/coinbase.go:105-130 | every input that parses is the concatenation of the serialized results |
| ScriptNumber.SerializeNumber | stratum/server/utils/coinbase.go:85-103 | the nine-byte buffer suffices exactly below 2^63, where the result is the number's item; otherwise the last store panics |
| ScriptNumber.NumberRoundTrip | stratum/server/utils/coinbase.go:85-103 | a decoder of BIP 34 height items gets every number below 2^63 back and stops behind it |
| ScriptNumber.NumberPrefixFree | stratum/server/utils/coinbase.go:85-103 | no item is a prefix of another one |
| ScriptNumber.SignedLEShortest | stratum/server/utils/coinbase.go:93-100 | the payload is the only shortest little-endian form with a clear sign bit |
| ScriptNumber.SerializerIsCanonicalPush | stratum/server/utils/coinbase.go:85-103 | it equals the script builder's push of the height if and only if the height is not 0 |
| ByteOrder.ReverseBytes | stratum/server/utils/coinbase.go:63-71 | the swap loop returns a fresh reversed copy |
| ByteOrder.ReverseByteOrder | stratum/server/utils/coinbase.go:53-61 | panics below 32 bytes; otherwise the two loops give the flipped words reversed, in a fresh array |
| ByteOrder.WordOrderOfHash | stratum/server/utils/coinbase.go:53-61 | 32 bytes keep their eight words, which get the opposite order |
| ByteOrder.SelfInverseOnlyOn32Bytes | stratum/server/utils/coinbase.go:57-59 | among lengths from 32 on it is its own inverse on all inputs exactly for 32 |
| ByteOrder.CommutesWithReverse | stratum/server/utils/coinbase.go:53-71 | on 32 bytes it commutes with ReverseBytes |
| ByteOrder.PackUint16LE | stratum/server/utils/coinbase.go:132-136 | the buffer holds the number's two bytes, least significant first |
| ByteOrder.PackUint32LE | stratum/server/utils/coinbase.go:138-142 | the buffer holds the number's four bytes, least significant first |
| ByteOrder.PackUint64LE | stratum/server/utils/coinbase.go:144-148 | the buffer holds the number's eight bytes, least significant first |
| ByteOrder.PackUint32BE | stratum/server/utils/coinbase.go:79-83 | the buffer holds the number's four bytes, most significant first |
| ByteOrder.PackInt32BE | stratum/server/utils/coinbase.go:73-77 | the same for the two's complement of a signed number |
| ByteOrder.PackInt32RoundTrip | stratum/server/utils/coinbase.go:73-77 | read as big-endian two's complement it is the number, for all 32-bit values |
| Coinbase.SplitCoinbase | stratum/server/utils/coinbase.go:199-225 | the parts for any bytes, with all panics; one byte of the shared array is overwritten, the last of part one, and part two is as before |
| Coinbase.HeightItemSkipped | stratum/server/utils/coinbase.go:204-215 | the height test skips exactly the height item, for every height below 2^63 and both encodings |
| Coinbase.ScriptsAreShort | stratum/server/utils/coinbase.go:188-195 | with an 8-byte nonce and a beacon hash of up to 75 bytes the script's length fits the one byte that offset 42 assumes |
| Coinbase.SplitIsSubstitution | stratum/server/utils/coinbase.go:188-225 | the parts of a template for one nonce joined around another one are the serialized transaction built for that other nonce |
| Coinbase.SubstitutionNeedsEightBytes | stratum/server/utils/coinbase.go:221-223 | among templates with any nonce the script builder takes, the split gives an 8-byte nonce's transaction exactly for nonces of 8 bytes |
| Coinbase.WitnessSplitReplacesScript | stratum/server/utils/coinbase.go:204-223 | for a coinbase with witness the rejoined bytes are the transaction whose whole script is the nonce |
| Coinbase.SubstitutionNeedsNoWitness | stratum/server/utils/coinbase.go:199-225 | for a coinbase outpoint the split is substitution if and only if the template has no witness |
| TxReader.EncodingReads | stratum/server/utils/coinbase.go:199-203 | a reader written field by field gets a transaction back from its form with witnesses, and from the other one without them, whatever follows |
| TxReader.TxRoundTrip | stratum/server/utils/coinbase.go:199-203 | every serialized transaction is read back whole, and the reader stops behind it |
| TxReader.TxPrefixFree | stratum/server/utils/coinbase.go:199-203 | different transactions have different serialized forms, none a prefix of another |
| ScriptReader.PushReads | stratum/server/utils/coinbase.go:188-195 | a reader of opcodes gets every item of at most 520 bytes back that the script builder pushes, a single zero byte as the empty item |
| ScriptReader.ScriptReads | stratum/server/utils/coinbase.go:188-195 | the coinbase script pushes the height, the nonce, the beacon hash and the flags, in this order, and nothing else |
| ScriptReader.FlagsSpelled | stratum/server/utils/coinbase.go:18-18 | the flags are the characters of /P2SH/jaxnet/ |
| ScriptReader.MinersTransactionReads | stratum/server/utils/coinbase.go:188-225 | the bytes a miner joins, read field by field: the template in all but the first script, which pushes the same height, beacon hash and flags around the miner's nonce |
| Merkle.BuildMerkleTreeStore | main3.go:82 | btcd's in-place loop yields the levels of the padded tree one after the other |
| Merkle.TreeRoot | main3.go:137-138 | the last node of that array is the Merkle root obtained by pairing up the hashes |
| Merkle.MerkleTreeBranch | stratum/server/utils/coinbase.go:21-30 | the loop's picks, with every index in range for an array of any length |
| Merkle.PicksAreSeconds | stratum/server/utils/coinbase.go:24-27 | in a flat tree the picks are node 1 of every level below the root |
| Merkle.BranchTheorem | stratum/server/utils/coinbase.go:21-30 | log2 of the padded size many entries, none dropped as nil, the same for every leaf 0, and any leaf 0 folded with them gives the root of the list starting with it |
| Merkle.TwoBranchesCollide | stratum/server/client.go:193-200 | one leaf reaches one root along two branches only through a hash collision on the way |
| Merkle.BranchWithoutCoinbaseIsWrong | stratum/server/client.go:193-194 | the branch of the tree without the coinbase misses the block's root, short of a collision on the way, for two transactions and for more of which the second and the third have different hashes |
| Merkle.BranchWithoutCoinbaseRightIff | stratum/server/client.go:193-194 | short of a collision it leads to the root if and only if all other transactions have one hash and their number is not a power of two |
| Merkle.TwoTransactionExample | stratum/server/client.go:193-194 | a concrete block for which it misses the root |
| Merkle.ThreeAlikeExample | stratum/server/client.go:193-194 | a concrete block for which it does not |
| Merkle.EmptyBranchOnlyForLoneCoinbase | stratum/server/conn.go:449-475 | an empty branch is right if and only if the coinbase is alone, short of a collision |
| Job.BuildJob | main3.go:78-90 | the job sent for a template: both parts and the printed branch; fails exactly if the split panics; the loop drops nil entries and prints the others with their bytes in reverse |
| Job.MinerFindsBlockRoot | main3.go:78-124 | end to end: with any 8-byte nonce the miner's hash folded with the branch, its entries turned around again, is the root of the block whose coinbase carries that nonce |
| Job.LiteralBranchNeedsPalindromes | main3.go:86-90 | a miner that takes the entries as they come gets that root, short of a collision, if and only if every entry reads the same backwards |
| Job.BuildJobForHeight | main3.go:45-90 | the same as a postcondition of the job builder, for all nonces at once |
| JobLaws.TreeObeysLaws | main3.go:82-82 | in the flat array each inner node is the hash of its left child's bytes followed by its right child's, or by the left child's again if the right one is nil, and nil above a nil |
| JobLaws.LawsFixTree | main3.go:82-82 | any array that obeys these laws for the leaves is that tree |
| JobLaws.CalculatedRoot | main3.go:137-138 | the array built obeys the laws and the root taken is its last node |
| JobLaws.LawsFixRoot | main3.go:137-138 | whatever obeys the laws for a block's transaction ids ends in the root obtained by pairing up hashes |
| JobLaws.JobBranchIsSeconds | main3.go:82-90 | entry k of the job's branch is, printed, node 1 of level k in whatever obeys the laws |
| JobLaws.ChainEndsInMinerRoot | main3.go:78-90 | steps that each hash the value so far followed by the next entry, turned around, end in the miner's root |
| JobLaws.ChainEndsInBlockRoot | main3.go:78-142 | end to end on bytes: the miner's chain with any 8-byte nonce ends in the last node of whatever obeys the tree laws for the block whose coinbase carries that nonce |
| ConnReaders.ConnReader.StartBackgroundRead | stratum/server/server.go:68-80 | the section's effect on the guarded fields and its three outcomes |
| ConnReaders.ConnReader.FinishBackgroundRead | stratum/server/server.go:82-120 | the pushback, the cleared flags, and when the context is cancelled |
| ConnReaders.ConnReader.AbortPendingRead | stratum/server/server.go:122-134 | sets aborted and waits exactly during a read |
| ConnReaders.ConnReader.EnterRead | stratum/server/server.go:163-187 | panic, end of file, empty read, pushback or a socket read of at most what remains |
| ConnReaders.ConnReader.FinishRead | stratum/server/server.go:190-196 | ends the read and takes the bytes off the budget |
| ConnReaders.ConnReader.SetReadLimit | stratum/server/server.go:136-136 | sets the budget and nothing else |
| ConnAnswers.ReadAnswers | stratum/server/server.go:163-187 | over orderly runs: a panic exactly while someone reads; end of file exactly if nobody does and the foreground bytes since the limit was set have reached it; nothing only for an empty buffer below the limit; the waiting byte exactly if one was taken and not delivered; otherwise the socket, for as much as buffer and limit allow |
| ConnAnswers.StartAnswers | stratum/server/server.go:68-80 | startBackgroundRead panics exactly while someone reads and starts exactly if nobody does and no byte waits |
| ConnAnswers.WaitingByte | stratum/server/server.go:82-85 | with nobody reading, a byte is buffered exactly if one was taken and not delivered, and it is that one |
| ConnAnswers.AbortReturnsOnlyWithoutRead | stratum/server/server.go:122-134 | abortPendingRead returns, at once or when woken, exactly if nobody reads |
| ConnAnswers.ReadEndCancelsIff | stratum/server/server.go:110-117 | the end of a foreground read cancels the context exactly on an error; that of a background read on any error but a timeout after an abort has hit a read |
| ConnAnswers.OnlyReadEndsCancel | stratum/server/server.go:150-153 | nothing else cancels the context |
| ConnReaders.RunSafe | stratum/server/server.go:42-200 | exclusion, stream and wake-up invariants survive every run of any number of goroutines |
| ConnReaders.OneReader | stratum/server/server.go:163-200 | at most one goroutine is inside a read, and no byte is pushed back meanwhile |
| ConnReaders.PanicsIffReading | stratum/server/server.go:71-73 | the panic on concurrent reads is raised exactly while another read is on |
| ConnReaders.StreamIsKept | stratum/server/server.go:68-200 | socket bytes are the delivered ones, then those in flight, then the pushed-back one, in every interleaving |
| ConnReaders.AbortLeavesNoRead | stratum/server/server.go:122-134 | an abort that waited leaves only when no read is on, and all bytes are delivered or pushed back |
| ConnReaders.SleeperIsOwedWakeUp | stratum/server/server.go:116-132 | a sleeping waiter is owed a broadcast: somebody reads or is about to broadcast |
| ConnReaders.DeliveredWithinBudget | stratum/server/server.go:136-200 | what remains is never negative, the deliveries exceed the limit by at most the pushed-back bytes, and conn.serve sees a connection as active exactly if the foreground took bytes |
| ConnReaders.LimitDuringReadOverruns | stratum/server/server.go:136-195 | a run in which a limit set during a read makes what remains negative |
| ConnReaders.LimitHoldsIff | stratum/server/server.go:136-195 | from any reachable state: what remains of a limit set there never turns negative before the next one, if and only if every foreground read under way fits the limit |
| ConnReaders.FlagIsExact | stratum/server/server.go:55-128 | aborted is up if and only if an abort has hit a read and no background read has finished since; a background read starts with it up exactly if an abort hit a foreground read since |
| ConnReaders.TimeoutIsNoticedIff | stratum/server/server.go:110-117 | a background read's timeout cancels the context if and only if no abort has hit a read since a background read finished last |
| ConnReaders.StaleAbortHidesTimeout | stratum/server/server.go:110-116 | a run in which an abort of a foreground read makes a later genuine timeout go unnoticed |
| ConnStates.PackRoundTrip | stratum/server/server.go:287-296 | the state always comes back from the word, the time exactly for 0 <= t < 2^56 |
| ConnStates.WordsOfStates | stratum/server/server.go:287-288 | the words of new, active, idle and closed are the time in the upper 56 bits and 0, 1, 2 and 3 below |
| ConnStates.DoomedMeans | stratum/server/server.go:858-870 | a word dooms its connection exactly if idle, or new for more than 5 s, was stored |
| Servers.OnceCloseListener.Close | stratum/server/server.go:936-947 | the inner listener is closed once, and every call answers what that close answered |
| Servers.Server.TrackListener | stratum/server/server.go:478-493 | refuses to add after the flag is up, and otherwise changes the set by that listener |
| Servers.Server.TrackConn | stratum/server/server.go:428-439 | changes the set by that connection |
| Servers.Server.GetDoneChan | stratum/server/server.go:523-534 | creates the channel if it is missing and says whether it is closed |
| Servers.Server.CloseDoneChanLocked | stratum/server/server.go:416-426 | the channel is closed afterwards and has been closed once in all |
| Servers.Server.CloseListenersLocked | stratum/server/server.go:877-885 | all tracked listeners are closed, and an error is reported exactly if one of them failed |
| Servers.Server.ShutdownSection | stratum/server/server.go:641-647 | the locked section closes the channel and all tracked listeners, and reports an error exactly if one of them failed |
| ServerSections.SweepMeetsSection | stratum/server/server.go:641-647 | the protocol's steps from the lock to the unlock meet that method's postcondition |
| Servers.Server.CloseIdleConns | stratum/server/server.go:853-875 | exactly the doomed connections are closed and forgotten; yes exactly if none is left |
| ServerSections.VisitMeetsCloseIdleConns | stratum/server/server.go:853-875 | with nobody else at work the protocol's steps meet that method's postcondition |
| ServerProtocol.RunKeeps | stratum/server/server.go:416-661 | the invariants on mutex, tracking, closes, verdicts, connections, idle checks and reports survive every run |
| ServerProtocol.NoListenerEscapes | stratum/server/server.go:478-493 | after any Shutdown's section every tracked listener is closed and none is ever added |
| ServerProtocol.EverythingClosesOnce | stratum/server/server.go:416-426 | the channel and each inner listener are closed at most once, over any number of Shutdown calls |
| ServerEnds.ReturnedServeHasClosed | stratum/server/server.go:544-553 | after any run a Serve that has returned, with whatever verdict and cause, has its inner listener closed exactly once and is not tracked |
| ServerEnds.SelectHasChannel | stratum/server/server.go:523-534 | no Serve loop ever selects on a nil done channel |
| ServerEnds.CauseIsTrue | stratum/server/server.go:574-576 | an Accept fails for a closed listener exactly if that listener has been closed |
| ServerProtocol.ServeVerdict | stratum/server/server.go:559-597 | refused, or failed on a closed listener: always ErrServerClosed; and ErrServerClosed only after a Shutdown call |
| ServerProtocol.VerdictAfterShutdown | stratum/server/server.go:577-597 | whoever has no verdict at the end of a Shutdown's section returns ErrServerClosed |
| ServerEnds.ClosedListenerSettles | stratum/server/server.go:574-581 | a loop in Accept whose listener has been closed returns ErrServerClosed or nothing in every continuation |
| ServerGuarantees.VerdictIsSettledIff | stratum/server/server.go:545-597 | from any reachable state a Serve returns ErrServerClosed or nothing in every continuation if and only if it is settled: by the flag before its check, in the loop by a Shutdown that holds mu or has closed the channel, with the channel in hand for a final error by the closed channel |
| ServerProtocol.LateServeIsRefused | stratum/server/server.go:636-639 | a Serve called after a Shutdown call accepts nothing and returns ErrServerClosed |
| ServerProtocol.OtherErrorAfterShutdownCall | stratum/server/server.go:576-597 | a run in which a Serve returns another error after a Shutdown call |
| ServerProtocol.SuccessfulShutdown | stratum/server/server.go:649-661 | no Serve loop runs then or later, no connection is tracked again, and those still tracked were between Accept and trackConn at the quiet check |
| ServerProtocol.SuccessCanLeaveConnection | stratum/server/server.go:652-654 | a run in which one is |
| ServerGuarantees.SuccessCanLeaveConnectionIff | stratum/server/server.go:652-654 | after a quiet check the Shutdown can succeed with a connection tracked if and only if one was accepted and not yet tracked at that moment |
| ServerProtocol.ReportIsExact | stratum/server/server.go:642-653 | the error of Shutdown is set exactly if a listener it found tracked failed to close |
| ServerEnds.ShutdownPollsOncePerTick | stratum/server/server.go:649-661 | in every run a Shutdown checks once before its first wait and once after each tick, and returns its context's error exactly if the context ended a wait |
| ServerProtocol.IdleCheckIsPrecise | stratum/server/server.go:853-875 | quiet exactly if no connection is tracked at unlock; only idle or stale new words, as read, are acted on, never an unwritten one |
| ServerEnds.UnwrittenReadsNew | stratum/server/server.go:857-868 | a connection tracked before its state is stored reads as new at time 0 and is never acted on |
| ServerProtocol.ActiveConnectionCanBeClosed | stratum/server/server.go:857-873 | a run in which a connection becomes active between the read of its word and its close |
| ServerGuarantees.ActiveConnectionCanBeClosedIff | stratum/server/server.go:857-873 | between the two, the close can hit the active state if and only if the goroutine still serves the connection or has stored that state; otherwise it is never active again |
| ServerProtocol.EndedConnIsUntracked | stratum/server/conn.go:283-292 | a connection whose goroutine has ended is not tracked |
| ServerEnds.EndedConnIsClosed | stratum/server/conn.go:283-292 | and its socket is closed and its last stored state is closed |
| RingBuffers.KeepsNewest | stratum/server/vardiff/ringbuffer.go:19-54 | what any series of Append and Clear leaves is the newest samples since the last clear |
| RingBuffers.Replay | stratum/server/vardiff/ringbuffer.go:10-54 | a new buffer put through any such series holds exactly those |
| RingBuffers.RingBuffer.Append | stratum/server/vardiff/ringbuffer.go:19-31 | read from the cursor on, the oldest sample makes room for the newest, through wrap-around |
| RingBuffers.RingBuffer.Size | stratum/server/vardiff/ringbuffer.go:42-48 | the length of the history |
| RingBuffers.RingBuffer.Avg | stratum/server/vardiff/ringbuffer.go:33-40 | the mean of the history, whatever the rotation |
| RingBuffers.RingBuffer.Clear | stratum/server/vardiff/ringbuffer.go:50-54 | forgets the history and keeps the size |
| VarDiffs.BufferHasFourPlaces | stratum/server/vardiff/vardiff.go:31-31 | four places or more exactly if a retarget spans a target; else size 0, which never fills |
| VarDiffAnswers.BufferHoldsFourRetargets | stratum/server/vardiff/vardiff.go:31-31 | the size is four times the number of whole target times in a retarget time |
| VarDiffAnswers.BoundsStand | stratum/server/vardiff/vardiff.go:34-35 | the bounds of the mean lie around the target time at the variance's distance |
| VarDiffs.VarDiff.CalcNextDiff | stratum/server/vardiff/vardiff.go:49-103 | one call computes the specified next state and answer and keeps the invariant that makes the mean positive |
| VarDiffs.Adjust | stratum/server/vardiff/vardiff.go:69-99 | the branches with their factors and quotients come down to the wished difficulty cut off at one bound |
| VarDiffs.RetargetMeanPositive | stratum/server/vardiff/vardiff.go:68-69 | at every retarget the mean is positive, so the division is safe |
| VarDiffs.RunStaysInRange | stratum/server/vardiff/vardiff.go:73-103 | over every run each answer is 0 or in range: doubling mode as coded, the other mode with the target in seconds |
| VarDiffs.CodedRange | stratum/server/vardiff/vardiff.go:69-80 | as coded the answer leaves the range exactly if shares are slow and the nanosecond ratio takes it over the maximum |
| VarDiffs.SlowSharesRaiseDifficulty | stratum/server/vardiff/vardiff.go:69-80 | as coded slow shares do not raise the difficulty exactly from a mean of 10^9 target times on |
| VarDiffAnswers.DoublingAnswers | stratum/server/vardiff/vardiff.go:73-99 | in doubling mode: half the difficulty down to the minimum, twice up to the maximum, or the same |
| VarDiffAnswers.RatioAnswers | stratum/server/vardiff/vardiff.go:69-99 | otherwise answer times mean is target times difficulty, cut off at the minimum on slow shares and at the maximum on fast ones only |
| VarDiffAnswers.ClearsIffOutside | stratum/server/vardiff/vardiff.go:73-101 | a retarget forgets the samples exactly if their mean lies outside the bounds, except slow shares at the minimum; no other call does |
| VarDiffRuns.RunLeavesRangeIff | stratum/server/vardiff/vardiff.go:49-103 | as coded, for every configuration, state and difficulty in range: some run leaves the range if and only if, outside doubling mode, some mean lies between the slow bound and the nanosecond target, and the difficulty is above the minimum or a fast mean can lift it |
| VarDiffRuns.MinimumIsKept | stratum/server/vardiff/vardiff.go:73-99 | with no mean that counts as fast, a difficulty at the minimum never moves in any run |
| VarDiffRuns.FastBranchDead | stratum/server/conn.go:352-352 | with a variance of 1 or more no mean counts as fast |
| VarDiffRuns.LiveDifficultyIsFrozen | stratum/server/conn.go:344-355 | with the server's configuration and initial difficulty every answer of every run is 0 or that difficulty |
| VarDiffRuns.LiveConfigLeavesIff | stratum/server/conn.go:344-355 | with that configuration a difficulty in range can leave it if and only if it is not the initial one |
| VarDiffs.SumIsElapsedTime | stratum/server/vardiff/vardiff.go:58-61 | after any run the kept gaps add up to the time since just before the oldest of them |
| VarDiffs.RetargetMeanIsElapsedTime | stratum/server/vardiff/vardiff.go:58-68 | the mean of a retarget is elapsed time over the number of gaps, through wrap-around and clears |
| VarDiffs.RetargetsAreSpaced | stratum/server/vardiff/vardiff.go:63-67 | retargets number i and j of a run are at least (j - i) retarget times apart |
| VarDiffAnswers.FirstRetarget | stratum/server/vardiff/vardiff.go:29-67 | a new controller retargets first at the first call retargetTime - retargetTime / 2 seconds after its creation, unless the clock showed just retargetTime / 2 then, which the source takes for no creation |
| VarDiffAnswers.NewControllerRetargetsWhenDue | stratum/server/vardiff/vardiff.go:29-67 | over all runs its retargets are that call and then greedily the first call one retarget time after each; in the excepted case the first call counts as the creation |
| VarDiffAnswers.NewControllerAnswersWhenDue | stratum/server/vardiff/vardiff.go:29-103 | and the answers other than 0 come at exactly these calls |

## Left out

- Serve: its loop and Shutdown's are steps of `ServerProtocol`, not methods with a loop, because they block on
  other goroutines; the panics on a nil context from BaseContext or ConnContext are not steps.
- Servers.Server.ShutdownSection: the onShutdown callbacks, which the section starts as goroutines.
- Servers.Server.CloseIdleConns: the state words stand still during the method; stores during the loop are steps
  of `ServerProtocol`.
- ConnReaders.StaleAbortHidesTimeout: read deadlines are not modelled; a socket read may time out at any moment.
- Job.BuildJob: the hexadecimal digits on the wire; a byte string stands for its digits.
- BTCCoinbaseScript: negative heights, which no block has.
- VarDiffs.VarDiff.CalcNextDiff: non-positive target times, retarget times and current difficulties, and bounds
  out of order; floating-point rounding, infinities and 64-bit overflow of the sum.
- VarDiffRuns.RunLeavesRangeIff: a negative variance, which is no percentage.
- Merkle.BuildMerkleTreeStore: the empty list, on which btcd's code panics.
- The script engine, the double SHA-256, JSON-RPC, share validation and configuration.
- TLS: ListenAndServeTLS also closes the raw listener, so the claim of one close is about the wrapped listener.
- conn.serve: message dispatch and panics; only the state stores, the deferred close and the read limit.
- Liveness: that a waiter is scheduled or a Shutdown comes to an end.
