# Hermit miner: a verified model

The miner searches the 32-bit nonce space for a double SHA-256 digest below a target, on
several threads, for jobs that a Stratum pool announces over a line protocol; a reconnect
loop keeps it going, and a JSON file configures it.  This project models those parts in
Dafny and proves what they guarantee, over every interleaving, every script of answers and
every input.  The fake pool that the project's own certification tests run against is
modelled as the other end of the protocol.

`dafny verify dfyconfig.toml` checks everything.

## How it is built

| files | what they model |
|---|---|
| `Arithmetic`, `NonceSearch`, `SearchProgress`, `SearchLimits` | `mine` as a transition system, one step per atomic access: loads of `stop` and of the stop request, hash, compare-and-swap, result write, `fetch_add`, and the supervisor's polls, stores and joins. The number of threads and the size of the nonce space are symbolic; the hash is any function. |
| `Fips180`, `Fips180Constants`, `Fips180Examples`, `Sha256Engine`, `Target`, `Mining` | SHA-256 by recursion on the message (FIPS 180-4), where its constants come from, its published examples, the in-place implementation against it, the target test against integer comparison, and the search instantiated with them on 2^32 nonces. |
| `JsonGrammar`, `JsonParsing`, `JsonPrinting`, `JsonExamples` | a declarative grammar with its meaning, the cursor-moving parser against it, the escaper and printer as its inverse, and the language by character codes and texts. |
| `Config`, `ConfigSchema`, `Validation` | loading with defaults, ranges and shadowing; the table of the settings and what loading does with each; the checks before a run and what they leave open. |
| `Backoff`, `SessionRules`, `SessionLaws`, `StratumLoop` | the 32-bit backoff; what a session and a run amount to, with the counters and the readiness status; the same said of the script and the events themselves; and the object with its two loops, against it. |
| `Protocol`, `Discards` | client and pool over two FIFO channels of messages, with faults at any step; when a notify is dropped, and at what cost. |
| `Matchers`, `Messages`, `Answers` | the texts of the messages and the patterns each side searches them for. |
| `Wire`, `Client`, `FakePool`, `Exchange`, `ByteSession` | lines as bytes, the client object, the pool's loop, requests with their answers end to end, and whole sessions on bytes. |

The steps of `Protocol` correspond to members about texts: `Serve` to
`Exchange.PoolServesTheRequest`, `LoseLine` to `Answers.CutLineIsWholeOrLost`, and `Receive`
to `Wire.AwaitFindsTheAnswer` and `Wire.WaitFindsTheJob`.  `ByteSession.SessionSucceeds` is
the faultless session once more, on bytes.

## What turned out false, and the exact conditions

* *"Not found" means no nonce meets the target.*  True of every run that reports neither a
  find nor an abort exactly when no stop request can arrive and there are at least two nonces
  per worker (`SearchLimits.TrustworthyIffTwoNoncesPerWorker`), that is for up to 2^31 threads
  (`Mining.ThreadLimit`): the threshold is one less than the number of nonces, so a worker
  that holds a single unpublished nonce can be overlooked, and a worker that a stop request
  sends home can leave one behind, for any number of threads and nonces
  (`SearchLimits.StopRequestCanMislead`).  `validate_config` accepts more threads
  (`Validation.AcceptedBeyondTheLimits`).  Where stop requests may arrive, the reported
  number of hashes tells: with up to 2^31 threads the result is right unless the number is
  2^32 - 1 (`Mining.HashesTriedTells`).
* *The reconnect delay doubles up to its maximum.*  True exactly when the maximum is below
  2^31 (`Backoff.ExponentialIffCapBelow31Bits`); beyond, the doubling wraps, and can collapse
  to 0 for good (`Backoff.DelayCollapses`).  `validate_config` accepts such maxima.
* *The pool's job number runs 0 or 1 ahead of the accepted shares.*  True exactly outside the
  window in which the pool has answered a submit, the client has the answer and the number
  is not yet increased (`Protocol.JobNumberAgreement`); without any fault the window is
  reachable (`Protocol.JobNumberCanLag`).  The number of submits the pool has answered runs
  0 or 1 ahead in every reachable state (`Protocol.ProtocolIsSafe`).
* *`request_response` never discards a notify.*  A step discards one exactly when it receives
  a line while the client waits for a response that has been lost
  (`Discards.DiscardsIffAnswerLost`), and an environment never makes it happen exactly if it
  never cuts a line (`Discards.NeverDiscardsIffNothingIsCut`).  It happens at most once, and
  no share is accepted after it (`Discards.OneDiscardEndsIt`).  The source logs such a notify
  as "Buffered" (`src/lib/stratum.cpp:242`), but nothing keeps it; the model drops it as the
  code does.

## Model

| member | source | states |
|---|---|---|
| NonceSearch.SearchIsSound | src/lib/miner_runtime.cpp:263-336 | In every interleaving, stop requests included: at most one compare-and-swap succeeds; on return `found` holds iff one did, and then nonce and hash belong together and meet the target; `hashes_tried` is the number of distinct nonces hashed. |
| NonceSearch.SearchIsExhaustive | src/lib/miner_runtime.cpp:256-336 | With two nonces per worker and no stop request: a return without a find means that no nonce meets the target, that all of them were tried, and that the run was not aborted. |
| NonceSearch.WorkIsConserved | src/lib/miner_runtime.cpp:263-294 | In every reachable state the hashed nonces are distinct, and nonce x has been hashed iff it is among the first `hashes` of worker x mod n. |
| SearchProgress.SearchDoesNotHang | src/lib/miner_runtime.cpp:297-323 | When all workers have left, `stop` is set, a stop request stands, or the total has reached the threshold: for any numbers of workers and nonces, with stop requests, none of which is ever withdrawn (`src/miner.cpp:18-20`). |
| SearchProgress.SearchReturns | src/lib/miner_runtime.cpp:297-336 | From then on the supervisor takes at most as many steps as there are threads, and eight more, and is never blocked before it returns. |
| SearchProgress.SearchIsNeverStuck | src/lib/miner_runtime.cpp:256-336 | In every reachable state before the return, a worker or the supervisor can move. |
| SearchProgress.WorkIsBounded | src/lib/miner_runtime.cpp:263-294 | No schedule has more steps of workers than three for each nonce and six for each worker. |
| NonceSearch.InvStep | src/lib/miner_runtime.cpp:258-336 | The invariant of workers, log, published total, winner and supervisor is kept by every atomic step. |
| NonceSearch.UnpublishedWithholds | src/lib/miner_runtime.cpp:294 | A worker that has not published keeps at least two nonces out of the published ones. |
| NonceSearch.ThresholdMeansAllFinished | src/lib/miner_runtime.cpp:309-322 | A published total of one less than the nonce space is only reached when every worker has published. |
| NonceSearch.ClassesAreResidues | src/lib/miner_runtime.cpp:264 | The stride of worker t visits exactly the nonces congruent to t, each at its quotient's turn. |
| SearchLimits.TrustworthyIffTwoNoncesPerWorker | src/lib/miner_runtime.cpp:264-322 | All runs that report neither a find nor an abort are right iff stop requests cannot arrive and twice the threads fit into the nonce space. |
| SearchLimits.MissedNonce | src/lib/miner_runtime.cpp:318-322 | With fewer nonces there is an undisturbed run that returns "not found" although a nonce meets the target. |
| SearchLimits.StopRequestCanMislead | src/lib/miner_runtime.cpp:265-267 | For any numbers of threads and nonces, some run with one stop request reports neither a find nor an abort although the last nonce, which was never hashed, meets the target. |
| SearchLimits.CountIsReliable | src/lib/miner_runtime.cpp:297-336 | With two nonces per worker, and whatever stop requests arrive: such a run has tried all nonces or all but one, and in the first case none meets the target. |
| SearchLimits.FullCountMisleads | src/lib/miner_runtime.cpp:284-294 | With fewer nonces even a full count can be wrong: a worker hits after the supervisor has given up. |
| SearchLimits.CountTellsIff | src/lib/miner_runtime.cpp:335 | With two nonces per worker the reported count can be believed iff it is not one less than the space; a full count can be believed only then. |
| Mining.MineIsExhaustive | src/lib/miner_runtime.cpp:245-337 | On 2^32 nonces with up to 2^31 threads: "not found" means that no nonce, written in four bytes, least significant first, after the prefix, has a double SHA-256 below the target. |
| Mining.MineIsSound | src/lib/miner_runtime.cpp:245-337 | A reported nonce and hash: the hash is the double SHA-256 of the prefix and the four bytes that hold the nonce, least significant first, and below the target. |
| Mining.ThreadLimit | src/lib/miner_runtime.cpp:256-264 | On 2^32 nonces the verdict can be trusted iff no stop request can arrive and there are at most 2^31 threads. |
| Mining.HashesTriedTells | src/lib/miner_runtime.cpp:297-335 | With up to 2^31 threads, and with stop requests, a result that is neither found nor aborted can be believed iff `hashes_tried` is not 2^32 - 1; a count of 2^32 can be believed only then. |
| Mining.NewPayload | src/lib/miner_runtime.cpp:260-261 | The worker's buffer starts with the prefix and has room for four more bytes. |
| Mining.TryNonce | src/lib/miner_runtime.cpp:272-282 | The buffer reused in place keeps the prefix and ends in the four bytes that hold the nonce, least significant first; hash and verdict are those of the search model. |
| Mining.NonceBytesEncode | src/lib/miner_runtime.cpp:274-277 | Four bytes hold a nonce, weighted 1, 2^8, 2^16 and 2^24, iff they are those that the worker writes. |
| Mining.HitIsSolution | src/lib/miner_runtime.cpp:279-282 | The search hits exactly the nonces whose four bytes after the prefix have a double SHA-256 below the target. |
| Mining.NonceBytesInjective | src/lib/miner_runtime.cpp:274-277 | Different nonces are hashed from different bytes. |
| Fips180.SigmasRotate | src/sha256.cpp:28-54 | The sigma functions written with shifts are rotations as in section 4.1.2 of FIPS 180-4. |
| Fips180.ChChooses | src/sha256.cpp:32-34 | For all bits: `ch` takes the second word where the first is one, the third where it is zero. |
| Fips180.MajAgrees | src/sha256.cpp:36-38 | For all bits: where two words agree, `maj` agrees with them. |
| Fips180.MajIsSymmetric | src/sha256.cpp:36-38 | So it does with any two of the three, whatever their order. |
| Fips180Constants.PrimesAreTheFirst | src/sha256.cpp:9-26 | The list behind the constants holds the first 64 primes: every prime up to the last, nothing else, in increasing order. |
| Fips180Constants.RoundConstants | src/sha256.cpp:9-26 | Constant i is the first 32 bits of the fraction of the cube root of the i-th prime (section 4.2.2 of FIPS 180-4). |
| Fips180Constants.StartValues | src/sha256.cpp:61-64 | The start values are those of the square roots of the first eight primes (section 5.3.3). |
| Fips180Examples.DigestOfAbc | src/sha256.cpp:60-136 | The digest of "abc" is the published one. |
| Fips180Examples.DigestOfTwoBlocks | src/sha256.cpp:81-124 | So is that of the published message of two blocks, for which the hash value is carried on and the schedule is filled again. |
| Fips180.PadLength | src/sha256.cpp:66-67 | The padded length is the least multiple of 64 that has room for nine more bytes. |
| Fips180.PadMark | src/sha256.cpp:69-78 | After the message stand the mark 0x80 and zeros up to the length field in the last eight bytes. |
| Fips180.PadInjective | src/sha256.cpp:66-78 | Messages with equal padding are equal. |
| Fips180.BigEndianRoundTrip | src/sha256.cpp:76-78 | The length field determines the length. |
| Fips180.WordBytesInverse | src/sha256.cpp:83-89 | Packing four bytes into a word and writing a word as four bytes are inverse. |
| Sha256Engine.PadMessage | src/sha256.cpp:66-78 | The buffer is the padded message of section 5.1.1. |
| Sha256Engine.FillSchedule | src/sha256.cpp:83-93 | The buffer `w`, whatever the last block left in it, becomes the message schedule of the block. |
| Sha256Engine.RunRounds | src/sha256.cpp:95-115 | The rotating registers compute the 64 rounds of section 6.2.2, on the constants and functions that the members above describe. |
| Sha256Engine.CompressBlock | src/sha256.cpp:95-124 | One block updates the hash value as specified. |
| Sha256Engine.Output | src/sha256.cpp:127-133 | The digest is the eight words in big-endian order. |
| Sha256Engine.Hash | src/sha256.cpp:60-136 | For every message below 2^61 bytes the result is SHA-256 as specified. |
| Sha256Engine.DoubleHash | src/sha256.cpp:142-145 | The result is SHA-256 of SHA-256. |
| Target.MeetsDifficulty | src/lib/job.cpp:8-28 | The byte and mask loop accepts iff the big-endian value of the digest is below 2^(256-bits); for more than 256 bits iff it is zero. |
| Target.MaskTest | src/lib/job.cpp:21-23 | A byte passes the mask of its upper r bits iff it is below 2^(8-r). |
| Target.TargetAntitone | src/lib/job.cpp:8-28 | What meets a difficulty meets every lower one. |
| JsonGrammar.ParseIsComplete | src/lib/miner_config.cpp:40-223 | Every text of the grammar is read, with the meaning of its derivation. |
| JsonGrammar.ParseIsSound | src/lib/miner_config.cpp:40-223 | Every text that is read has a derivation with the value read. |
| JsonGrammar.ParseDecidesTheGrammar | src/lib/miner_config.cpp:44-51 | Reading succeeds iff the text has a derivation. |
| JsonGrammar.GrammarIsUnambiguous | src/lib/miner_config.cpp:40-223 | All derivations of a text mean the same. |
| JsonExamples.SpaceCodes | src/lib/miner_config.cpp:213-222 | White space is codes 32, 9, 10 and 13, and digits are codes 48 to 57. |
| JsonExamples.EscapeCodes | src/lib/miner_config.cpp:154-164 | The eight escapes that are read, letter and character by code. |
| JsonExamples.WrittenCodes | src/lib/stratum.cpp:253-262 | The five escapes that are written; every other character stands for itself. |
| JsonExamples.NumberIsRead | src/lib/miner_config.cpp:174-188 | A run of digits, leading zeros included, is a document iff its value is at most 18446744073709551615. |
| JsonExamples.WordsAreRead | src/lib/miner_config.cpp:190-211 | `true`, `false`, `null` and the empty object mean themselves. |
| JsonExamples.SpacedText | src/lib/miner_config.cpp:213-222 | A text with line ends of both kinds and tabs between its tokens is accepted. |
| JsonExamples.RepeatedKey | src/lib/miner_config.cpp:118 | Of two equal keys the last one counts. |
| JsonExamples.NoArraysNoSigns | src/lib/miner_config.cpp:57-84 | The empty text, and every text that begins with a bracket or a sign, is refused. |
| JsonExamples.NothingAfterNumbers | src/lib/miner_config.cpp:44-51 | A number followed by anything but space is refused: fractions and exponents are no part of the language. |
| JsonExamples.OtherEscapes | src/lib/miner_config.cpp:164 | A string that begins with any other escape, `\u` among them, is refused, whatever follows. |
| JsonExamples.NoTrailingComma | src/lib/miner_config.cpp:99-106 | A comma before the closing brace is refused. |
| JsonParsing.JsonParser.Parse | src/lib/miner_config.cpp:44-51 | The parser object succeeds iff the text has a derivation, and returns the meaning of any of them. |
| JsonParsing.JsonParser.SkipWs | src/lib/miner_config.cpp:213-222 | The cursor moves over the white space. |
| JsonParsing.JsonParser.ParseValue | src/lib/miner_config.cpp:57-84 | The value at the cursor and what follows it, or failure. |
| JsonParsing.JsonParser.ParseObject | src/lib/miner_config.cpp:86-135 | The object at the cursor, an empty one included; failure where no brace opens. |
| JsonParsing.JsonParser.ParseMembers | src/lib/miner_config.cpp:99-134 | The member loop collects the members in order, the last of equal keys winning. |
| JsonParsing.JsonParser.ParseString | src/lib/miner_config.cpp:137-172 | The string at the cursor with its escapes resolved, or failure. |
| JsonParsing.JsonParser.ParseChars | src/lib/miner_config.cpp:143-171 | The characters up to the closing quotation mark, one or one escape at a time. |
| JsonParsing.JsonParser.ParseEscape | src/lib/miner_config.cpp:150-167 | Succeeds iff one of the eight escape letters follows, with its character. |
| JsonParsing.JsonParser.ParseNumber | src/lib/miner_config.cpp:174-188 | The digits at the cursor if they fit into 64 bits. |
| JsonParsing.JsonParser.ParseBool | src/lib/miner_config.cpp:190-202 | Succeeds iff `true` or `false` stands at the cursor. |
| JsonParsing.JsonParser.ParseNull | src/lib/miner_config.cpp:204-211 | Succeeds iff `null` stands at the cursor. |
| JsonPrinting.JsonEscape | src/lib/stratum.cpp:250-264 | The buffer built is the escaped string, and quoted it reads back as the input. |
| JsonPrinting.ParseStringInvertsEscape | src/lib/miner_config.cpp:137-172 | Reading a quoted escaped string gives the string, for all bytes. |
| JsonPrinting.EscapeIsInjective | src/lib/miner_runtime.cpp:35-64 | Different strings have different escapes. |
| JsonPrinting.DecimalRoundTrip | src/fake_pool.cpp:98-102 | A number written in decimal reads back as itself. |
| JsonPrinting.DecimalIsPlain | src/fake_pool.cpp:98-102 | No number of more than one digit starts with a zero. |
| JsonPrinting.RenderingExists | src/lib/miner_config.cpp:24-38 | Every value with numbers of up to 64 bits can be printed. |
| JsonPrinting.PrintParseRoundTrip | src/lib/miner_config.cpp:44-135 | A printed value, with any spacing and order of keys, parses to itself. |
| JsonPrinting.ParseRendering | src/lib/miner_config.cpp:44-51 | The parser object, run on a printed value, returns it. |
| Config.LoadConfig | src/lib/miner_config.cpp:265-360 | Field-by-field assignment yields the interpretation of the text, which `ConfigSchema.LoadReads` determines setting by setting; a refused text leaves the defaults. |
| Config.AssignString | src/lib/miner_config.cpp:236-243 | A text setting comes from its section, else from the top level, else stays; which values that gives is stated by `ConfigSchema.LoadReads`. |
| Config.AssignUint | src/lib/miner_config.cpp:245-252 | A number that is found but out of range leaves the field alone, without a second lookup. |
| Config.AssignBool | src/lib/miner_config.cpp:254-261 | A flag comes from its section, else from the top level, else stays. |
| Config.LoadedIsInRange | src/lib/miner_config.cpp:265-360 | Every configuration loaded from any text is within all its ranges. |
| Config.ConfigRoundTrip | src/lib/miner_config.cpp:265-360 | A configuration in range, written in the nested schema, loads to itself. |
| Config.ConfigHasText | src/lib/miner_config.cpp:265-360 | Such a text exists for every configuration in range. |
| Config.NestedShadowsFlat | src/lib/miner_config.cpp:291-357 | A well-typed nested field, in range or not, makes the flat one irrelevant. |
| ConfigSchema.LoadReads | src/lib/miner_config.cpp:265-360 | For every accepted text and each of the 22 settings: the value in its section if there is one of its type, else the one at the top level, and the literal default with neither, or if the number found is out of range. |
| ConfigSchema.DefaultsAreThose | src/lib/miner_config.h:12-35 | The literal defaults are those a configuration starts with. |
| ConfigSchema.SchemaRoundTrip | src/lib/miner_config.cpp:265-360 | Any rendering of an object that carries a configuration in range, each setting in its section or only at the top level, with whatever else is in it, loads to that configuration. |
| ConfigSchema.FlatRoundTrip | docs/ARCHITECTURE.md:68 | A configuration in range, written with all its settings at the top level, loads to itself. |
| ConfigSchema.FlatHasText | docs/ARCHITECTURE.md:68 | Such a flat text exists for every configuration in range. |
| Validation.ValidateConfig | src/lib/miner_config.cpp:404-460 | Accepts iff no problem is present, and reports the first one in the order of the checks. |
| Validation.AcceptedMeans | src/lib/miner_config.cpp:404-460 | What is accepted, in one condition on the fields. |
| Validation.UsernameLaw | src/lib/miner_config.cpp:362-370 | The user name set; or the payout address, a dot and the worker; or the worker alone. |
| Validation.LoadedProblems | src/lib/miner_config.cpp:404-460 | On a loaded configuration the numeric checks never fail. |
| Validation.AcceptedBackoff | src/lib/miner_config.cpp:446-453 | For an accepted configuration the delays double up to the maximum iff that is below 2^31. |
| Validation.AcceptedBeyondTheLimits | src/lib/miner_config.cpp:404-412 | Some text loads and is accepted with too many threads and too long a delay. |
| Backoff.DelayIsExponential | src/lib/miner_runtime.cpp:342-384 | Below 2^31 the k-th delay is the smaller of the maximum and the first delay times 2^k. |
| Backoff.ExponentialIffCapBelow31Bits | src/lib/miner_runtime.cpp:342-384 | The law holds for all k iff the maximum is below 2^31. |
| Backoff.DelayCollapses | src/lib/miner_runtime.cpp:384 | With 2^31 as first delay and maximum, every later delay is 0. |
| Backoff.FirstAndCap | src/lib/miner_runtime.cpp:342-343 | The first delay is at least one second, the maximum at least the first delay. |
| SessionRules.StatusOfStage | src/lib/miner_runtime.cpp:118-129 | The status depends on nothing but one of four stages: no share, some without failures, three without failures, some with failures. |
| SessionRules.SortedStagesAreWellShaped | src/lib/miner_runtime.cpp:118-129 | Statuses of non-decreasing stages read not_ready, degraded, ready, degraded, each any number of times. |
| SessionRules.OrderedTraceIsWellShaped | src/lib/miner_runtime.cpp:131-145 | So do the statuses of snapshots of counters that only grow. |
| SessionRules.CountersBalance | src/lib/miner_runtime.cpp:182-237 | For every history: submits equal shares found equal accepted plus failed ones, at most one share per job, reconnects equal session failures; where every failed submit fails its session, which RunLoop ensures, they are no fewer than failed submits, up to the one being accounted for. |
| SessionRules.LastJobIsLastAccepted | src/lib/miner_runtime.cpp:231-234 | The reported job is that of the last accepted share. |
| SessionLaws.OpeningLaw | src/lib/miner_runtime.cpp:147-166 | A session opens iff the first three answers are all favourable, and takes exactly the answers up to the first that is not. |
| SessionLaws.CycleLaw | src/lib/miner_runtime.cpp:184-236 | What three answers at hand mean for a job: lost or stopped, search aborted, no share, rejected, or accepted for the job named; and how many of them are used. |
| SessionLaws.SessionEnds | src/lib/miner_runtime.cpp:184-241 | For all scripts: a session goes on after an accepted share and after a search without one; it ends with 6 iff the last job was lost, with 8 iff the last share was rejected, and with 0 only after a stop or all cycles. |
| SessionLaws.SessionReads | src/lib/miner_runtime.cpp:184-236 | A session that does not use up its script splits it into turns, one for each event and in order, each of which is exactly the answers that its event needs, and none of which holds a stop before the last. |
| SessionLaws.RunEnds | src/lib/miner_runtime.cpp:348 | After a stop or all cycles no further session is started. |
| SessionLaws.FailureLaw | src/lib/miner_runtime.cpp:357-384 | A failed session is the last one at the cap, or at a stop, which is looked for before the delay; otherwise one delay is slept. |
| SessionLaws.FirstRefusalEnds | src/lib/miner_runtime.cpp:348-371 | With a cap of one, a refusal among the first three answers of the first session ends the run with 4. |
| SessionLaws.RefusalsEnd | src/lib/miner_runtime.cpp:348-385 | For every cap: a pool that refuses every connection is tried that often, with one delay fewer, and the code is 4. |
| SessionLaws.FaultlessRun | src/lib/miner_runtime.cpp:339-419 | For every number of cycles: a script without faults is one session, with code 0 and a share accepted for each job in order. |
| SessionLaws.CountersCount | src/lib/miner_runtime.cpp:190-234 | Every counter is the number of events of its kind. |
| SessionLaws.LastCodeIsLastFailure | src/lib/miner_runtime.cpp:357-360 | The code reported is that of the last failed session, or 0. |
| SessionLaws.ReadinessMeans | src/lib/miner_runtime.cpp:118-129 | Over every history: ready iff three shares were accepted and nothing failed; not ready iff none was accepted. |
| StratumLoop.Runtime.StartSession | src/lib/miner_runtime.cpp:147-166 | Connect, subscribe and authorize take one answer each; it succeeds iff all three are favourable, and consumes the answers up to the first that is not. |
| StratumLoop.Runtime.RunCycle | src/lib/miner_runtime.cpp:186-236 | One job adds the one event that the answers to wait, search and submit amount to, which the counters record, and a snapshot iff a share was accepted. |
| StratumLoop.Runtime.SubmitShare | src/lib/miner_runtime.cpp:219-235 | A share is counted as submitted, then as accepted or failed. |
| StratumLoop.Runtime.Iterate | src/lib/miner_runtime.cpp:184-236 | One test and one body of the loop account for what the whole session amounts to: it is over with its code, or the rest is still to come. |
| StratumLoop.Runtime.RunCycles | src/lib/miner_runtime.cpp:184-241 | The loop goes through exactly the events that the answers determine, and ends with their code. |
| StratumLoop.Runtime.RunSession | src/lib/miner_runtime.cpp:168-241 | The code is 4 iff one of the first three answers is a refusal, and then the answers up to it are consumed and nothing happens; otherwise events, code and stop flag are those that the answers determine, the code is 0, 6 or 8, 0 only after a stop request or all cycles, 8 iff the last event is a failed submit. |
| StratumLoop.Runtime.CountFailure | src/lib/miner_runtime.cpp:357-360 | A failed session is counted once as a failure and once as a reconnect, with its code. |
| StratumLoop.Runtime.AfterFailure | src/lib/miner_runtime.cpp:357-384 | A failure is counted, the cap decides whether it is final, and otherwise one delay is slept. |
| StratumLoop.Runtime.Reconnect | src/lib/miner_runtime.cpp:348-385 | Events, delays, sessions and code of the whole loop are those that the answers decide, and the code is nonzero iff the cap was reached. |
| StratumLoop.Runtime.Goes | src/lib/miner_runtime.cpp:348 | The test ends the loop iff a stop is requested or all cycles are done, which after a session that returned 0 is always so: the reset delay is never slept. |
| StratumLoop.Runtime.Account | src/lib/miner_runtime.cpp:350 | One session leaves the run with what the answers decide for its end. |
| StratumLoop.Runtime.Retry | src/lib/miner_runtime.cpp:357-384 | After a failed session the run is over, by the cap or a stop, or goes on after one delay, with the next one due. |
| StratumLoop.Runtime.RunLoop | src/lib/miner_runtime.cpp:339-419 | Whole runs, determined by the answers, with code and counters for a refusal in the first session, for refusals up to any cap, and for scripts without faults; balanced counters, exit code nonzero iff the cap was reached exactly, the delays in sequence and never restarted, the readiness trace, and a final "ready" only after one session without a delay. |
| Protocol.ProtocolIsSafe | src/lib/stratum.cpp:214-248 | In every reachable state, faults included: the i-th accepted share is for job i, the pool has answered 0 or 1 submits more than were accepted, 0 while the client waits for a job, and without a lost line no notify is discarded. |
| Protocol.JobNumberAgreement | src/fake_pool.cpp:193-201 | The pool's job number is 0 or 1 ahead of the accepted shares iff it is not in the window after an answer that has arrived. |
| Protocol.JobNumberCanLag | src/fake_pool.cpp:193-195 | The window is reachable without a fault, for every cycle limit. |
| Protocol.LostResponseDiscardsNotify | src/lib/stratum.cpp:239-244 | For every cycle limit, one lost response is enough for a notify to be discarded. |
| Discards.DiscardsIffAnswerLost | src/lib/stratum.cpp:224-245 | In every reachable state, a step discards a notify iff it receives a line while the client waits for a response that has been lost. |
| Discards.NeverDiscardsIffNothingIsCut | src/lib/stratum.cpp:224-245 | No schedule of an environment discards a notify iff the environment never cuts a line, whatever other faults it has. |
| Discards.OnlyFailureIsLeft | src/lib/stratum.cpp:224-247 | After a discard the client can only give up, and its session fails with code 4 or 8. |
| Discards.OneDiscardEndsIt | src/lib/stratum.cpp:239-247 | At most one notify is ever discarded, and no share is accepted after it, in this session or a later one. |
| Protocol.InvStep | src/lib/miner_runtime.cpp:168-241 | The invariant of session, channels and pool is kept by every step and every fault. |
| Protocol.NeverStuck | src/fake_pool.cpp:168-205 | In every state reached without faults, with or without a cycle limit, a session that is not over can go on. |
| Protocol.MeasureDecreases | src/lib/miner_runtime.cpp:184-236 | Every step without a fault brings a session with a cycle limit closer to its end. |
| Protocol.FaultlessSessionSucceeds | src/fake_pool.cpp:166-205 | Without faults every schedule is bounded, and one that cannot go on has ended with code 0 and all shares accepted in order. |
| Matchers.FindOnly | src/lib/stratum.cpp:266-316 | A search for a pattern that fits one position finds it from every start up to there, and nothing after. |
| Matchers.OnlyKey | src/lib/stratum.cpp:266-316 | A quoted key can only stand where a quotation mark and its first letter stand. |
| Matchers.KeyWithSpace | src/lib/stratum.cpp:266-316 | White space of any kind may stand on both sides of the colon of a key. |
| Matchers.TrueSpellings | src/lib/stratum.cpp:280-289 | Of the four letters in any case only `true` and `TRUE` are true. |
| Matchers.KeyCase | src/lib/stratum.cpp:266-316 | The keys of results and errors are found in any case, those of identifiers and methods only in lower case. |
| Matchers.ContainsMeans | src/fake_pool.cpp:177 | `find` succeeds iff the very characters stand somewhere. |
| Messages.RequestIsOneLine | src/lib/stratum.cpp:324-404 | No request contains a line break, whatever the strings in it. |
| Messages.MarkIsWritten | src/fake_pool.cpp:177-193 | The three texts by which the pool tells the methods apart. |
| Messages.RequestIsWritten | src/lib/stratum.cpp:324-404 | A request up to its parameters, character by character. |
| Messages.ListIsWritten | src/lib/stratum.cpp:324-404 | One, two and three parameters, quoted, escaped and separated. |
| Messages.ResponseIsWritten | src/fake_pool.cpp:98-102 | A response, character by character. |
| Messages.NotifyIsWritten | src/fake_pool.cpp:184-200 | An announcement, character by character. |
| Messages.HeadIsRead | src/fake_pool.cpp:85-96 | Client and pool recover the identifier of every line that starts with one. |
| Messages.LargeIdIsNone | src/lib/stratum.cpp:266-278 | An identifier beyond 64 bits is none to the client and 0 to the pool. |
| Messages.DispatchIsExact | src/fake_pool.cpp:176-193 | Whatever strings a request carries, the pool finds in it the mark of its own method and of no other. |
| Answers.ReadResponse | src/lib/stratum.cpp:266-294 | What the client reads in a response of the pool, a refusal included, with any front part missing. |
| Answers.TruthIsHeard | src/lib/stratum.cpp:280-289 | For every identifier and every error text: a result of true is read as true, and one of false as false. |
| Answers.ErrorIsRead | src/lib/stratum.cpp:291-294 | The error is read as null iff it starts with that word, for every error and result in which no quotation mark is followed by an `e`. |
| Answers.UnknownIsRefused | src/fake_pool.cpp:204 | A line that carries none of the three methods is refused in these words, and changes nothing. |
| Answers.JobTextIsRead | src/lib/stratum.cpp:303-315 | Any job is read back from its text; a difficulty beyond 32 bits is read as 20. |
| Answers.EmptyNameIsNone | src/lib/stratum.cpp:303-308 | A job without a name is none. |
| Answers.ReadNotify | src/lib/stratum.cpp:296-316 | What the client reads in an announcement with any front part missing: job K with difficulty 20 as long as its method key is there, and never an identifier. |
| Answers.CutLineIsWholeOrLost | src/lib/stratum.cpp:163-212 | A line of the pool, a refusal included, that a deadline cuts is read as itself or as nothing, never as another message. |
| Wire.LineArrives | src/lib/stratum.cpp:163-212 | A line without breaks that is there before the deadline arrives unchanged, whatever the pauses. |
| Wire.CarriageReturnIsDropped | src/lib/stratum.cpp:199-208 | A line that ends in carriage return and newline arrives without them. |
| Wire.LongLineIsLost | src/lib/stratum.cpp:203-207 | The connection is given up at character 65537 of a line. |
| Wire.LapseLosesTheFront | src/lib/stratum.cpp:164-211 | A lapsed deadline loses the bytes read so far and no more. |
| Wire.AwaitFindsTheAnswer | src/lib/stratum.cpp:223-247 | The first line with the awaited identifier is returned, and exactly the lines before it are dropped. |
| Wire.WaitFindsTheJob | src/lib/stratum.cpp:369-393 | The first notify is returned. |
| Client.NonceHexRoundTrip | src/lib/stratum.cpp:318-322 | Eight hexadecimal digits that determine the nonce. |
| Client.HexDigitCodes | src/lib/stratum.cpp:318-322 | The digits are `0` to `9` and lower-case `a` to `f`, by code. |
| Client.AcceptsMeans | src/lib/stratum.cpp:146-158 | A line is sent iff some number of calls each take bytes and together take all of them. |
| Client.StratumClient.SendLine | src/lib/stratum.cpp:131-161 | However the kernel cuts it, the line and its newline go out in order; the call succeeds iff all of it went; on failure a prefix went and the connection is given up. |
| Client.StratumClient.ReceiveLine | src/lib/stratum.cpp:163-212 | The line received, the lapse, or the loss of the connection, and what is left to receive. |
| Client.StratumClient.RequestResponse | src/lib/stratum.cpp:214-248 | The response to the request's own identifier, or none; a request without one is not sent; and what was sent and is left to receive. |
| Client.StratumClient.Subscribe | src/lib/stratum.cpp:324-344 | One identifier is used, and it succeeds iff a response came whose error is null: the response to a subscription succeeds, a refusal does not. |
| Client.StratumClient.Authorize | src/lib/stratum.cpp:346-367 | One identifier is used, and it succeeds iff a response came whose result is true: with a response whose result is the word false, whatever its error, it returns false. |
| Client.StratumClient.WaitForJob | src/lib/stratum.cpp:369-393 | The first job that comes before a stop, a lapse or a loss. |
| Client.StratumClient.SubmitShare | src/lib/stratum.cpp:395-424 | One identifier is used, and the share is accepted iff a response came whose result is true: with a response whose result is the word false, whatever its error, it returns false. |
| FakePool.ReceiveLine | src/fake_pool.cpp:64-83 | The bytes up to the first newline without carriage returns, or failure at the end of the stream. |
| FakePool.TakeLineOfLine | src/fake_pool.cpp:64-83 | A line without breaks is received unchanged. |
| FakePool.TakeLineDropsReturn | src/fake_pool.cpp:76-81 | A carriage return before the newline is dropped. |
| FakePool.Server.Answer | src/fake_pool.cpp:176-204 | One turn of the loop sends the lines that the request calls for, the response before the job, and moves the job number on. |
| FakePool.Server.Run | src/fake_pool.cpp:166-205 | Until the stream holds no further line, every line is answered in turn, and nothing else is sent. |
| Exchange.PoolServesTheRequest | src/fake_pool.cpp:168-204 | The pool answers every request, whatever its strings, with the response to its identifier and then the job that is due. |
| Exchange.SessionIsServed | src/fake_pool.cpp:166-205 | For any sequence of requests with any strings, the bytes the pool sends are the replies to each, in order, and nothing else. |
| Exchange.JobsAreAnnouncedInOrder | src/fake_pool.cpp:182-202 | Once a job has been announced, the submits announce the following ones in order without gaps, and nothing else announces any. |
| Exchange.RequestIsAnswered | src/lib/stratum.cpp:214-248 | End to end: a request within the line limit reaches the pool unchanged, and the client gets its response, after dropping what came before. |
| Exchange.SubmitRound | src/lib/miner_runtime.cpp:184-236 | A submit is accepted and the next job is the pool's next one, with nothing left over. |
| Exchange.RefusalIsHeard | src/lib/stratum.cpp:214-248 | A request whose answer is a refusal, with whatever error, gets that answer, after dropping what came before, and reads false in it. |
| ByteSession.RoundSucceeds | src/lib/miner_runtime.cpp:184-236 | From the bytes of a job to the bytes of the next: the share is accepted for the job announced, and the next one is there to be read. |
| ByteSession.RefusedShareEnds | src/lib/miner_runtime.cpp:222-227 | A share that is refused ends the session and is not counted. |
| ByteSession.StartSucceeds | src/lib/miner_runtime.cpp:147-166 | Subscribe and authorize succeed on bytes and leave the first job to be read. |
| ByteSession.SessionSucceeds | src/lib/miner_runtime.cpp:168-236 | For any agent, user and password and any number of rounds: without faults the i-th accepted share is for job-i, on bytes. |

## Left out

- Sockets, name resolution, `select` and `recv` (`src/lib/stratum.cpp:79-129`): a connection is a stream of bytes and a script of what each call finds.
- Wall clocks, hash rates and shares per minute: a deadline is the end of a script; sleeps are recorded as numbers.
- Relaxed memory ordering: the atomics are sequentially consistent, and the result is read after the joins.
- Failure to start a thread, and a thread count that exhausts the machine.
- The `std::regex` engine: the fixed patterns are small matchers; its recursion limits on long lines are not modelled.
- The parser's recursion depth, which the C++ stack bounds; the value and position a failed parse leaves behind.
- Bytes are Dafny characters; the parser and the escaper treat all of them alike, so nothing depends on their width.
- Failures of the pool to send, which it ignores; its `send_line` is the loop of the client's without the limit.
- The switch for incremental health files: the model records the counters at every snapshot point, written or not.
- The 64-bit counters and the pool's 32-bit job number are unbounded; `cycles_done` and the client's identifiers wrap as in the source.
- Infinite runs: a script of answers is finite and ends in a stop, so the results about the loops are about every finite part of a run.
- Rejected shares in `Protocol`: the fake pool accepts all of them; `StratumLoop` and `Client.StratumClient.SubmitShare` cover rejection.
- The choice of prefix and difficulty for a job (`src/lib/miner_runtime.cpp:197-202`): `Mining` takes both as given.
- Logging, health files, the signal handler, the command line, the environment lookup of the password, build scripts.
- `hash_to_hex` and `hex_to_bytes` (`src/lib/job.cpp:30-47`): formatting for output, and `stoul` on pairs.
- The strength of SHA-256, and any claim that a share will be found.
- ByteSession.SessionSucceeds: on bytes only the session without faults is followed; what a lapse does to a line is stated by Answers.CutLineIsWholeOrLost, and what faults do to a session by Protocol.ProtocolIsSafe and Discards.OneDiscardEndsIt, on messages.
- Exchange.SubmitRound: assumes that every line is there before its deadline and that no stop is requested, as ByteSession.SessionSucceeds does.
- JsonParsing.JsonParser.ParseNumber: says nothing about the cursor after a failure, at which the parser gives up.
