# Verified models of the ed2k server's hard parts

A Dafny 4.11 model of the mechanisms in the ed2k server that are optimised or concurrent and have a
simple meaning they must agree with, and proofs that they do. `dafny verify dfyconfig.toml` checks
everything. Each file is one module; `Common`, `Bytes`, `Decimal`, `Sorting` and `Text` hold shared
vocabulary (finite sums, little-endian numbers, decimal text, sorting, lines and trimming).

Three forms are used, following the source. Objects that update their fields are classes
(`TokenBucket`, `UdpBudget`, `Writer`, `IpFilter`, `TextFile`, `Directory`, `Auth`, `Supervisor`)
whose methods are proved against functions of the old state. Loops over buffers and lists are methods
with invariants. Concurrent code is a state machine: an `Action` is what the source does under one
lock or in one atomic operation, `Apply` is its effect, and theorems are about `After(s, run)` for
every possible sequence of actions of any number of tasks.

## What is proved

**Name history** (`NameCache`, `NameDb`, `NameMeaning`). The write-behind cache means the table it would
leave if flushed. Noting one offer in the cache is writing it through to that table, so wherever flushes
fall the table ends as if every offer had been written at once. The `Writer` object is proved to perform
that cache on SQL-like rows with unique ids, including batches that fail and are rolled back: files,
names and publishers stay the true counts, rows say their own publisher and network counts, the caps
hold. What the table says is also stated without any step that produces it: which names are in it, and
of each name the publishers, in the order of their first offers, and the verdict. The `whitelisted`
column is different: it is OR-ed into a name still pending but written to a stored row only with a
verdict, so flush timing shows in it, exactly when the flags disagree (`WhitelistedShowsFlushTiming`).

**Work admission** (`TokenBucket`, `UdpProtocol`, `UdpBudget`, `UdpCalls`, `UdpForgetting`,
`UdpForgettingShows`, `UdpSourceBudget`, `PendingLogins`, `ClientSlots`, `Retries`, `Sources`). Every
interleaving keeps the conservation laws: credits admitted, taken but unsettled, and left in the bucket
never exceed the burst plus rate times time, over a whole run and over any window; the source table's
counter is exact and within its cap; shares, permits, slots and pair guards are returned exactly once,
and each is refused exactly when it is used up. Every verdict of the UDP budget is given by levels and
counts. Every interleaving of packets and sweeps is set against a table that never forgets: it decides
every packet alike provided that each forgotten source comes back reading a time at which its old bucket
is renewed, which readings used in order and in whole microseconds guarantee; and that condition is
exact, since otherwise two packets of the source show the difference. Each source is admitted at most
its burst and its rate times the time whenever readings are used in order, whatever the clock's grain.
At a grain finer than a microsecond every stored bucket stays, over whole runs, within one microsecond's
refill of the bucket a table that never forgets would have, for as long as no verdict differs.

**IP filter and bot addresses** (`IpFilter`, `IpFilterMeaning`, `BotIpFilter`). Loading, sorting,
merging and binary search answer as a scan of the file's lines, of which only those that write out a
range block anything. Re-asserting the recorded addresses adds exactly them and loses no line.

**Update client** (`HashLists`, `HashListMeaning`, `Zip`, `Backups`). The merge of two hash lists is an
exact, structure-preserving union; the archive reader returns the file from any archive laid out per
APPNOTE.TXT; backup i holds the content of i updates earlier, and whatever fails the file itself holds
all of its old content or all of the new.

**Admin login** (`AdminAuth`, `LoginProtocol`). Fixed failure windows bound every sliding window, over
every run of concurrent logins.

**Gossip seeds** (`Seeds`) and the **load generator** (`LoadGen`): the reconcile loop's invariant over
every run; the mixer's inverse and the integer formatter.

## Where the code and its documentation differ

The model follows the code.

- `src/admission.rs:814-815` says that forgetting full buckets loses nothing. A packet reads the clock
  before it gets to the table (`src/admission.rs:751`), so a sweep can overtake it and forget a bucket
  that is full at the sweep's reading and not at the packet's; the packet is then served where it would
  have been refused (`OvertakenPacketIsServed`), beyond the source's budget
  (`OvertakingBreaksTheBudget`). And on a clock finer than a microsecond even a return in order can be
  told apart, because the new bucket starts its microseconds afresh (`NotRenewedShows`).
  `ForgettableIffRenewed` and `UntimelyReturnShows` give the exact condition.
- `src/updates.rs:738-756`: a hash that the old list lacks and the new one has twice is looked up under
  the `usize::MAX` marker and the merge panics. `MergeHashLists` returns `None` exactly then, and
  `RepeatedNewHashPanics` is such an input.
- `src/updates.rs:771-775`: writing the merged text back drops one blank line at its end and one
  carriage return per line, so merging the same list again keeps every line if and only if the merged
  file has neither (`MergeAgain`, with `BlankLinesShrink` as the failing input).
- `src/admin_auth.rs:53-54` promises at most five wrong passwords per address per window. The windows are
  fixed, so nine can fall within one window-length of time, and no more (`NineWrongPasswords`,
  `KeyBound`).
- `src/main.rs:2170-2173` promises every listed seed a fresh attempt when the list changes. A loop that
  ended since the last tick is given up on in that same tick (`ChangedListRetries`, with
  `EndedLoopGetsNoRetry` as the failing run).
- `src/filter/ipfilter.rs:12-14` says ranges stay one to one with the file's lines. They are merged, and
  a hit is counted on the merged range: there is one range per line if and only if the lines' ranges,
  sorted, keep a gap between any two (`OneRangePerLine`, with `NeighboursShareARange` as the failing text).
- `src/filter/ipfilter.rs:220-221` names zero-padded octets; a leading plus sign is accepted too.
- `src/server/bot_ipfilter.rs:73-83` writes no separator, so an address recorded after an unfinished line
  is glued to it: it is read back if and only if that line is blank (`RememberedIsListed`, with
  `UnfinishedListLosesAddress` as the failing texts).
- `src/server/bot_ipfilter.rs:56-70` keeps the old text, but a last line ending in a carriage return and no
  newline loses it (`AppendKeepsLines`, with `BareCarriageReturnIsLost` as the failing text); trimmed, the
  line reads the same.

## Model

| member | source | states |
|---|---|---|
| NameCache.NotedIsWriteThrough | src/name_db.rs:433-531 | One offer noted in the cache adds up to that offer written straight to the table, on every column but `whitelisted`, and on that one too exactly when the flag of a still pending name agrees |
| NameCache.NamesAddUp | src/name_db.rs:501-511 | The names of a hash that count against the cap are those stored and those pending, none twice |
| NameCache.FlushScheduleInvisible | src/name_db.rs:398-637 | For every sequence of offers and every choice of flush points the table after a last flush is the write-through table, whose publishers `RowsSayWhatWasOffered` names in order |
| NameCache.FlushScheduleInvisibleToFlags | src/name_db.rs:453-471 | With agreeing whitelisted flags the schedule is invisible on every column |
| NameCache.WhitelistedShowsFlushTiming | src/name_db.rs:457-471 | For a new name offered twice, a flush in between makes no difference if and only if the second flag agrees with the first |
| NameCache.WriteThroughWithinCaps | src/name_db.rs:453-531 | Write-through keeps publishers per name distinct and capped and names per hash capped |
| NameCache.CapsHold | src/name_db.rs:433-531 | The caps hold in the table that any schedule leaves, pending names included |
| NameMeaning.RowsSayWhatWasOffered | src/name_db.rs:453-531 | After any offers a row lists the publishers it had and then each new user in the order of the first offers, cut at the cap; its name, size and time are those of the first offer; its layer and rule those it had or, having none, those of the first offer with a layer |
| NameMeaning.NamesRecorded | src/name_db.rs:501-531 | A name is in the table if and only if it was there or, when first offered, fewer names of its hash than the cap had been seen |
| NameMeaning.RowsOfRun | src/name_db.rs:398-531 | Of the rows that agree with the write-through table, as `Writer.Run` leaves them when no read or write fails: each holds exactly that of the events given for its name, user and network digests in their places |
| NameDb.EncodePubs | src/name_db.rs:341-348 | The blob written has eight bytes a pair and decodes to the pairs |
| NameDb.PubsRoundTrip | src/name_db.rs:330-348 | Decoding undoes encoding for every publisher list |
| NameDb.DecodeLength | src/name_db.rs:330-339 | A blob of any length decodes to its whole eight-byte pairs |
| NameDb.DecodedAt | src/name_db.rs:330-339 | Pair i of a blob is the user's four bytes and then the network's, lowest byte first |
| NameDb.Dedup | src/name_db.rs:350-355 | Of a sorted list, dropping equal neighbours leaves each element once |
| NameDb.DistinctNets | src/name_db.rs:350-355 | Sort and dedup count exactly the distinct networks |
| NameDb.ClippedAtIsLongest | src/name_db.rs:436-442 | The truncated name is the longest prefix within the limit that cuts no character |
| NameDb.KeyRankIsLexicographic | src/name_db.rs:542-543 | The order batches are sorted in is that of (hash, key) pairs |
| NameDb.SortedBatch | src/name_db.rs:541-543 | The drained batch lists every pending change once, in key order |
| NameDb.InsertMidway | src/name_db.rs:584-606 | Inside the transaction, inserting a new name keeps rows, ids and running counts true |
| NameDb.UpdateStatements | src/name_db.rs:607-620 | The two conditional UPDATEs leave one row changed, to what the change means |
| NameDb.WholeBatch | src/name_db.rs:564-637 | After the whole batch the table is what the cache meant and the counts are the true ones |
| NameDb.HistoryNoted | src/name_db.rs:433-531 | The cache still adds up to the write-through replay of all offers after one more |
| NameDb.HistoryFlushed | src/name_db.rs:533-561 | After a flush the table is the replay of the offers that reached it, a failed batch being lost whole |
| NameDb.Writer.constructor | src/name_db.rs:171-193 | A writer over a table with true counts starts valid, with nothing pending |
| NameDb.Writer.StoredWithinCaps | src/name_db.rs:433-637 | At every valid moment the stored rows, and the table the pending changes would leave, are within the caps |
| NameDb.Writer.Truncate | src/name_db.rs:436-442 | The loop returns the name when it has at most 1024 bytes, and otherwise its longest prefix of at most 1024 that ends before no continuation byte |
| NameDb.Writer.Fold | src/name_db.rs:452-477 | Folding into a pending change is the cache's fold, keeps the row id, and appends the publisher exactly when there is room and its user is not among those listed |
| NameDb.Writer.Add | src/name_db.rs:433-531 | Adding an event is noting its offer; afterwards a pending change lists the user of the event or is at the cap; a failed look-up changes nothing but the statistics; the capped count moves exactly on a new name that finds no room |
| NameDb.Writer.Write | src/name_db.rs:564-637 | A transaction that succeeds leaves what the cache meant with true stored counts; one that fails anywhere leaves the table as it was |
| NameDb.Writer.WritePending | src/name_db.rs:540-561 | Counters follow the table after success and stay after failure |
| NameDb.Writer.Flush | src/name_db.rs:533-561 | A flush empties the cache into the table, or loses exactly its batch when the write fails |
| NameDb.Writer.Handle | src/name_db.rs:398-431 | One turn of the loop keeps the pending changes below the limit, takes every event whose look-up does not fail, flushes on a request and on a timeout and not before the limit otherwise, and loses a batch only to a failed write |
| NameDb.Writer.Run | src/name_db.rs:398-431 | Over the writer's whole life the events taken, all but those whose look-up failed, fall into batches in order, and the table ends as the write-through replay of the batches that were written; none is lost without a failed write |
| TokenBuckets.TokenBucket.Refill | src/admission.rs:206-218 | The object is refilled as the bucket function says |
| TokenBuckets.TokenBucket.Take | src/admission.rs:220-231 | Taking refills first, then takes all of the cost or nothing |
| TokenBuckets.TokenBucket.Refund | src/admission.rs:233-239 | A refund adds the cost, up to the burst |
| TokenBuckets.TokenBucket.IsFullAt | src/admission.rs:242-247 | Fullness is judged on a copy, the bucket itself unchanged |
| TokenBuckets.RefillIsExact | src/admission.rs:206-218 | The 64-bit saturations never show: exactly rate times whole microseconds is credited and exactly those are consumed |
| TokenBuckets.RefillIsPathIndependent | src/admission.rs:206-218 | Any split of an interval gives the same level and clock, the remainder below a microsecond included |
| TokenBuckets.TakeIsExact | src/admission.rs:220-231 | A take succeeds if and only if the exactly refilled level covers the cost, and debits exactly it |
| TokenBuckets.SecondRefills | src/admission.rs:187-231 | A second after an empty bucket's clock it covers a cost exactly when the rate and the burst, in credits, do; a new bucket covers the burst |
| TokenBuckets.RefundUndoesTake | src/admission.rs:220-239 | A refund right after a take leaves what the refill alone would |
| TokenBuckets.FullStaysFull | src/admission.rs:242-247 | An idle full bucket is full at every later time |
| TokenBuckets.FullIsExact | src/admission.rs:242-247 | A bucket counts as full exactly when its exact refill reaches the burst |
| Sources.MaskKeepsPrefix | src/admission.rs:883-893 | Two addresses mask alike if and only if their prefixes agree |
| Sources.SharedBudget | src/admission.rs:879-898 | Two remote addresses share a budget exactly when they carry the same IPv4 address, as such or as ::ffff:a.b.c.d, or carry none and agree in the configured number of leading bits, at least one and at most 128 |
| Sources.AsIpIsFaithful | src/admission.rs:872-877 | Keys turned into addresses stay distinct |
| Sources.LoopbackAddresses | src/admission.rs:446-448 | The loopback addresses, exempt from the limit of each source, are 127.0.0.0/8 and ::1 |
| UdpProtocol.StepInv | src/admission.rs:768-827 | Every atomic step of a check or sweep keeps the entry locks, the buckets' form, the table's account and the conservation law |
| UdpProtocol.PromisedKept | src/admission.rs:780-827 | Only a won compare-and-swap enlarges the table to come, and only a sweeper's release shrinks it, each by its own key |
| UdpProtocol.WorkMoves | src/admission.rs:768-812 | Only an arrival's refill makes credits; a refund gives back at most what was owed |
| UdpProtocol.GlobalBudget | src/admission.rs:187-247 | Over every run, credits admitted, unsettled and left never exceed the burst plus rate times time |
| UdpProtocol.WindowBudget | src/admission.rs:187-247 | From any reachable state, credits admitted during any window stay within those unsettled, one burst, and the rate times the window |
| UdpProtocol.TableAccount | src/admission.rs:780-827 | `entries` is stored buckets plus slots reserved less slots released, and never above the cap |
| UdpProtocol.TableBound | src/admission.rs:816-827 | At rest the table is within the cap; with one sweeper between release and erasure it holds at most one more |
| UdpProtocol.ReleaseNeverWraps | src/admission.rs:816-827 | The sweeper's decrement never wraps below zero |
| UdpProtocol.EntriesArePaidFor | src/admission.rs:750-772 | Over every run a source has an entry only if some packet of it was paid for out of the server-wide budget |
| UdpBudgets.UdpBudget.Check | src/admission.rs:768-812 | One check run alone gives the verdict and the state that `CheckedIsExact` and `CheckedLeaves` describe |
| UdpBudgets.UdpBudget.Admit | src/admission.rs:750-766 | The packet is served if it is admitted or the server only observes, and each refusal is counted under its reason |
| UdpBudgets.UdpBudget.Sweep | src/admission.rs:816-827 | Exactly the full buckets go, the counter follows, and the number dropped is returned |
| UdpBudgets.SoloIsARun | src/admission.rs:768-812 | A check run by one task is a run of the protocol that leaves the same state and decides the one packet alike |
| UdpCalls.CheckedIsExact | src/admission.rs:768-812 | A packet is refused server-wide exactly when the server-wide level does not cover its cost, for lack of room exactly when it does but the source is new and the table at its cap, and else admitted exactly when the source's level covers it |
| UdpCalls.CheckedLeaves | src/admission.rs:768-812 | The server-wide bucket and the source's pay for admitted packets alone; a packet refused server-wide or for lack of room leaves the table as it was |
| UdpCalls.SweptIsARun | src/admission.rs:816-827 | A sweep by one task is a run of the protocol that decides no packet and leaves exactly the buckets that are not full |
| UdpCalls.SeriesIsARun | src/admission.rs:750-827 | Every series of packets and sweeps is a run of the protocol and admits the same credits |
| UdpCalls.ServedWithinBudget | src/admission.rs:187-247 | Over every series of packets and sweeps the cost of the packets that got `Ok` stays within the burst and the rate times the time |
| UdpForgetting.ForgettingLosesNothing | src/admission.rs:768-827 | Any interleaving of packets and sweeps, with every forgotten source back when its old bucket is renewed and no packet finding the table full, decides every packet as a run of the same packets on a table that never forgets, with the same credits admitted and the same server-wide bucket |
| UdpForgetting.SweepingIsInvisible | src/admission.rs:814-827 | The same for every interleaving that uses its readings, in whole microseconds, in order |
| UdpForgetting.AlikeIsUndisturbed | src/admission.rs:768-827 | The same, at any readings, for as long as the buckets kept for the sources would decide every packet alike; the table that never forgets ends as those buckets |
| UdpForgetting.OrderIsRecovering | src/admission.rs:814-827 | Readings used in order, at any grain of the clock, bring every forgotten source back only once its old bucket is full |
| UdpForgetting.RenewedIsRecovered | src/admission.rs:242-247 | In whole microseconds, renewed means full at the reading and last read no later |
| UdpForgettingShows.ForgettableIffRenewed | src/admission.rs:206-247 | From a packet on, whatever follows, a kept bucket and a new one give the same verdicts if and only if the kept one is renewed at the packet's reading |
| UdpForgettingShows.UntimelyReturnShows | src/admission.rs:768-827 | A forgotten source met when its old bucket is not renewed is told from one that was kept by at most two packets |
| UdpForgettingShows.OvertakenPacketIsServed | src/admission.rs:751-812 | A run in which a sweep overtakes a packet that is served, and the run without the sweep in which it is refused |
| UdpSourceBudget.SourceBudget | src/admission.rs:785-812 | Over every run with sweeps, at any grain of the clock, in which a forgotten source is met again only once its old bucket is full, one source is admitted at most its burst and its rate times the time |
| UdpSourceBudget.SourceBudgetInOrder | src/admission.rs:785-812 | The same for every source of every run that uses its readings in order |
| UdpSourceBudget.OvertakingBreaksTheBudget | src/admission.rs:751-812 | The overtaking sweep admits two credits of a source within 999 microseconds at one a millisecond and a burst of one |
| UdpSourceBudget.DriftStaysBelowOneMicrosecond | src/admission.rs:206-247 | Over every run with readings used in order at any grain, however often sources are forgotten and for as long as the kept buckets would decide every packet alike, each stored bucket is within one microsecond's refill of the kept one |
| UdpSourceBudget.DriftFromUndisturbed | src/admission.rs:768-827 | When no packet finds the table full, those kept buckets are the table of a sweep-free run of the same packets to the same verdicts |
| PendingLogins.StepInv | src/admission.rs:445-471 | Every step keeps each source's count equal to its live shares and within its limit, and permits plus holders equal to the pool |
| PendingLogins.DecrementHasOne | src/admission.rs:322-329 | The decrement on drop never meets zero, so it never saturates |
| PendingLogins.ZerosKept | src/admission.rs:317-329 | A zero entry stays only while some task is about to remove it |
| PendingLogins.PendingAccount | src/admission.rs:445-471 | Over every run limits hold; at rest no zero entry survives and permits in use are all sources' shares plus the loopback logins |
| PendingLogins.RefusedExactlyWhenFull | src/admission.rs:445-471 | At every moment of every run a source is refused exactly when as many logins as its limit hold its shares, and the pool refuses exactly when as many logins as it has permits are pending |
| ClientSlots.StepInv | src/admission.rs:115-183 | The gauge is the number of undropped slots at every step, a drop never wraps it, a session's cell holds one slot |
| ClientSlots.HeldWithinCeiling | src/admission.rs:151-178 | Over every run with one fixed ceiling the gauge passes it only by the live forced slots |
| ClientSlots.ReleaseOnce | src/admission.rs:136-139 | Releasing a session twice takes its slot once, and no other slot |
| ClientSlots.DroppedForGood | src/admission.rs:122-128 | A slot once returned never comes back |
| ClientSlots.LoadDecides | src/admission.rs:151-168 | The count a reservation reads decides it: refused exactly when there is a ceiling and as many slots are held; a ceiling of zero refuses nobody |
| Retries.StepInv | src/admission.rs:476-495 | Every step keeps the pair set equal to the live guards' keys, no pair guarded twice, and permits plus holders equal to the pool |
| Retries.RetryAccount | src/admission.rs:299-308 | The same over every run, and live retries within the pool |
| Retries.RefusalsLeaveNoClaim | src/admission.rs:476-495 | A coalesced refusal changes nothing; a busy one, its guard dropped, leaves the state before the claim |
| Retries.RefusedExactlyWhenTaken | src/admission.rs:476-495 | At every moment of every run a retry is a duplicate exactly when the guard of its pair is held, and turned away exactly when every permit is out |
| IpFilters.OctetSpellings | src/filter/ipfilter.rs:228-231 | Leading zeros and one plus sign leave an octet what it is |
| IpFilters.IpToU32 | src/filter/ipfilter.rs:222-234 | The shifting loop gives the dotted value of exactly four octets, or nothing |
| IpFilters.IpOfOctets | src/filter/ipfilter.rs:222-234 | Four octet texts joined by dots are read back octet by octet |
| IpFilters.DatLineParses | src/filter/ipfilter.rs:197-207 | A line in the ipfilter.dat layout is read as its range, whatever follows it |
| IpFilters.P2pLineParses | src/filter/ipfilter.rs:209-218 | A line in the .p2p layout is read as its range whatever colons and dashes its description holds, unless it already reads as the other layout, which needs a spaced dash |
| IpFilterMeaning.CommentsBlockNothing | src/filter/ipfilter.rs:54-60 | Putting a line whose first solid character is `#`, or a blank one, anywhere into a file or taking it out changes for no address whether it is blocked, by the scan or by the index |
| IpFilterMeaning.BlockedIsWritten | src/filter/ipfilter.rs:197-218 | A line that blocks an address writes out two addresses around a dash, in one of the two layouts, whose range holds it |
| IpFilters.MergeRanges | src/filter/ipfilter.rs:237-252 | The loop computes the merge function |
| IpFilters.MergedSeparated | src/filter/ipfilter.rs:237-252 | Merged ranges keep a gap of at least one address between any two |
| IpFilters.MergedHolds | src/filter/ipfilter.rs:237-252 | Merging neither adds nor loses an address, with inverted ranges and the last address |
| IpFilters.MergedAgain | src/filter/ipfilter.rs:237-252 | Merging a merged list changes nothing |
| IpFilters.OneRangePerLine | src/filter/ipfilter.rs:12-14 | The index has one range per line that gives one if and only if those ranges, sorted, keep apart, and is then the sorted list; otherwise it is shorter |
| IpFilters.NeighboursShareARange | src/filter/ipfilter.rs:237-252 | A text of two lines whose neighbouring addresses leave one range |
| IpFilters.IndexIsFaithful | src/filter/ipfilter.rs:38-103 | For every text and address the index holds the address if and only if some line covers it; which lines do is said by `DatLineParses`, `P2pLineParses`, `BlockedIsWritten` and `CommentsBlockNothing` |
| IpFilters.LastStartDecides | src/filter/ipfilter.rs:89-101 | Only the last range that starts at or before an address can hold it |
| IpFilters.PartitionPoint | src/filter/ipfilter.rs:89-90 | The binary search splits the ranges at the address |
| IpFilters.IpFilter.Load | src/filter/ipfilter.rs:38-80 | Loading a file gives its index, blank lines and comments skipped, and zero hits; a missing file blocks nothing |
| IpFilters.IpFilter.IsBlocked | src/filter/ipfilter.rs:84-103 | The answer is that of the scan, comment lines covering nothing, and exactly one hit counter, of a range holding the address, moves when it is yes |
| BotIpFilters.FormatLineParses | src/server/bot_ipfilter.rs:29-33 | The line written for an address is one line and reads back as that address alone |
| BotIpFilters.WrittenLine | src/server/bot_ipfilter.rs:28-33 | The line written for 71.231.168.221, character by character |
| BotIpFilters.AppendIsExact | src/server/bot_ipfilter.rs:58-71 | Appending adds exactly one address to what the file blocks |
| BotIpFilters.AppendKeepsLines | src/server/bot_ipfilter.rs:67-69 | The old text is a prefix of the new, every old line survives trimmed, and verbatim if and only if the text does not end in a bare carriage return |
| BotIpFilters.BareCarriageReturnIsLost | src/server/bot_ipfilter.rs:67-69 | A text whose last line loses its carriage return to the append |
| BotIpFilters.ReassertIsExact | src/server/bot_ipfilter.rs:87-101 | Afterwards the file blocks what it blocked before and the listed addresses |
| BotIpFilters.ReassertTwice | src/server/bot_ipfilter.rs:87-101 | A second pass writes nothing |
| BotIpFilters.ReassertKeepsLines | src/server/bot_ipfilter.rs:87-101 | Over a whole pass the old text is kept in front, no line is lost and each reads the same trimmed |
| BotIpFilters.StrictIsDisplay | src/server/bot_ipfilter.rs:74-89 | A text parses as an address if and only if it is how that address is written |
| BotIpFilters.RecordedIsListed | src/server/bot_ipfilter.rs:76-79 | The duplicate test on texts finds exactly the addresses the list is read as |
| BotIpFilters.RememberedIsListed | src/server/bot_ipfilter.rs:80-83 | A recorded address is read back if and only if the list's last line was ended or blank, and then no other address changes |
| BotIpFilters.UnfinishedListLosesAddress | src/server/bot_ipfilter.rs:80-83 | A list ending in an address without a newline gives back neither that address nor the one recorded next |
| BotIpFilters.TextFile.AppendIfMissing | src/server/bot_ipfilter.rs:58-71 | The answer and the new text in every case, read and write errors included |
| BotIpFilters.TextFile.Remember | src/server/bot_ipfilter.rs:74-84 | The list's new text in every case |
| BotIpFilters.Reassert | src/server/bot_ipfilter.rs:87-101 | The loop writes the re-asserted text, loses no earlier line, and returns the number of lines added, zero if and only if every listed address was covered |
| HashLists.SameHash | src/updates.rs:682-706 | Two lines carry the same hash exactly when they start with the same 32 hex digits, case aside |
| HashListMeaning.LineKinds | src/updates.rs:682-706 | A line is a comment when it is blank or starts with `#`, `;` or `//`, an entry when exactly 32 hex digits start it, and junk when neither |
| Texts.WhiteAscii | src/updates.rs:683 | Of the ASCII characters trimming takes the space, tab, line feed, vertical tab, form feed and carriage return |
| HashListMeaning.AnnotatedIs | src/updates.rs:708-713 | An entry is annotated exactly when solid text follows its 32 digits |
| HashListMeaning.WrittenEntry | src/updates.rs:682-713 | A hash followed by any text is an entry unless a hex digit follows, and annotated exactly when the text is not blank |
| HashListMeaning.SameHashIs | src/updates.rs:682-706 | Entries carry the same hash exactly when their digits agree, the case of letters aside |
| HashLists.SameSaying | src/updates.rs:682-713 | White space at the end of a line changes neither its hash nor its annotation |
| HashLists.UpgradeSays | src/updates.rs:745-751 | An upgraded line keeps its hash; it is annotated if it was, or if it is the first of a hash the new list annotates |
| HashLists.IndexLines | src/updates.rs:729-735 | The index maps each hash to its first line |
| HashLists.MergeHashLists | src/updates.rs:726-776 | The merge panics if and only if the new list repeats a hash the old one lacks; otherwise its text is the merged one, which `OldLinesStay` and `NewLinesFollow` describe line by line |
| HashLists.TextReadsBack | src/updates.rs:771-775 | Joined lines read back as they were, but for one carriage return each and a blank last line |
| HashLists.MergeIsUnion | src/updates.rs:715-776 | The merged file carries the hashes of both and no other, and has solid text behind a hash if and only if either did |
| HashLists.MergeCounts | src/updates.rs:715-776 | The entry count grows by exactly the hashes the old list lacked; no junk is added |
| HashLists.MergeKeepsLines | src/updates.rs:718-724 | Old lines keep their places; one that changes was the first of its hash and bare and takes the annotated form of the same hash |
| HashListMeaning.OldLinesStay | src/updates.rs:718-751 | An old line is replaced exactly when it is the first with its hash, has nothing behind it, and a new line has solid text behind that hash; then by the first that does; every other line stays but for a carriage return |
| HashListMeaning.NewLinesFollow | src/updates.rs:754-770 | After the old lines come an empty one unless the last is blank, the line that counts the new entries, and the new lines with hashes the old list lacks, in their order, each once |
| HashLists.MergeAgain | src/updates.rs:726-776 | Merging the same list again adds and changes nothing, and keeps every line if and only if none ends in a carriage return and the last is not blank |
| HashLists.BlankLinesShrink | src/updates.rs:771-775 | A file of blank lines loses one with every merge |
| HashLists.RepeatedNewHashPanics | src/updates.rs:745-756 | Any hash on two lines of the new text, merged into an empty file, is a panicking input |
| HashLists.Validate | src/updates.rs:581-606 | Mostly junk exactly when four times the junk lines outnumber the hashes, empty exactly without hashes or junk and not for a whitelist, otherwise the number of hashes |
| HashLists.MergeStaysValid | src/updates.rs:934-946 | Merging into a list that passes gives one that passes, with exactly the new hashes more |
| Zip.FindEndRecord | src/updates.rs:432-448 | The backward search finds the last end record in its range or shows there is none, and ends |
| Zip.ReadEntry | src/updates.rs:450-507 | The fields are read in bounds for arbitrary bytes, with the source's errors in its order |
| Zip.UnzipFirstFile | src/updates.rs:422-508 | The result is the entry the last end record leads to; no read runs past the end |
| Zip.UnzipIs | src/updates.rs:422-508 | For arbitrary bytes: an archive gives a content if and only if its last end record leads to a directory header of a file, no directory, whose data, stored or inflated, is that content and whose size field is zero or its length |
| Zip.ReadsBack | src/updates.rs:422-508 | Of any archive laid out with one file and no later signature, the file's data is read under the directory's method and size, whatever the local header, extra fields, descriptor and comments hold |
| Zip.RoundTrip | src/updates.rs:490-506 | A stored file is read back as its content, a deflated one as decompression gives it |
| Backups.Directory.RotateBackups | src/updates.rs:788-810 | With no failure each kept backup moves up by one, the oldest goes, the file is copied to the first; whatever fails, no other name changes and no backup from the second on holds anything but an older one's content |
| Backups.Directory.InstallAtomic | src/updates.rs:820-841 | The new content stands under the name and the temporary file is gone, or, on a failure, nothing but the temporary file has changed |
| Backups.Directory.Update | src/updates.rs:971-977 | Whatever fails, the file holds all of its old content or all of the new, and the answer says which; with no failure the update is the rotation followed by the install |
| Backups.Generations | src/updates.rs:782-841 | Over any run of updates from any directory, generation i up to N is the content of i updates earlier or the backup it pushed along |
| Backups.FromNoBackups | src/updates.rs:782-841 | With no backup at the start, backup i exists exactly up to the number of replaced files and N |
| Backups.KeepNone | src/updates.rs:788-791 | Keeping none leaves every existing backup alone |
| AdminAuth.ConstantTimeEq | src/admin_auth.rs:172-177 | The accumulating comparison is equality |
| AdminAuth.SharedRecord | src/admin_auth.rs:204-213 | Two addresses share a failure record exactly when they carry the same IPv4 address, or carry none and lie in the same /64 |
| AdminAuth.Auth.LockedFor | src/admin_auth.rs:259-277 | An address must wait exactly while its record holds five failures or, unless it is loopback, the global one fifty, in a ten-minute window still open; the wait is the exact time until nothing locks it |
| AdminAuth.OldestRecord | src/admin_auth.rs:282-284 | A record with the earliest start is found |
| AdminAuth.Auth.NoteFailure | src/admin_auth.rs:279-295 | Ended records go, at most one oldest makes room, the failure is counted, and at most 4096 keys are tracked |
| AdminAuth.NotedIsExact | src/admin_auth.rs:279-295 | A failure noted: records older than ten minutes and the one evicted are gone, others untouched, the address's own counts one more, and the global one counts all but loopback's |
| AdminAuth.Auth.Login | src/admin_auth.rs:314-351 | A login with no other under way is refused exactly when either lock check finds the address locked; otherwise a right password clears the record and opens a session, and a wrong one is counted |
| AdminAuth.Auth.NewSession | src/admin_auth.rs:297-310 | At most 64 sessions; only expired ones and, when full, one that expires first are lost |
| AdminAuth.Auth.SessionValid | src/admin_auth.rs:243-253 | True if and only if the token is stored and unexpired; expired ones are dropped |
| AdminAuth.RecordCounts | src/admin_auth.rs:279-295 | A record counts exactly the failures since its start, and the window-length before it held fewer than the most |
| AdminAuth.SlidingBound | src/admin_auth.rs:259-295 | Fixed windows of at most M failures bound every half-open sliding window by 2M - 1 |
| AdminAuth.NinePass | src/admin_auth.rs:53-55 | The bound is met by an allowed series of failures: nine in one window-length under a limit of five |
| LoginProtocol.StepInv | src/admin_auth.rs:314-351 | Every step of concurrent logins keeps the counts, the records and the table bound |
| LoginProtocol.CountsKept | src/admin_auth.rs:319-331 | The queue counter stays the number of queued logins and lets at most four remote ones in |
| LoginProtocol.OneHolder | src/admin_auth.rs:331-334 | At most one login is past the mutex |
| LoginProtocol.RecordsKept | src/admin_auth.rs:279-350 | The global record and every key's record stay the fold of the failures since their last reset |
| LoginProtocol.GlobalBound | src/admin_auth.rs:193-196 | Over every run the global counter stays within 50 and any window-length of time holds at most 99 wrong remote passwords |
| LoginProtocol.KeyBound | src/admin_auth.rs:53-57 | Over every run each key's counter stays within 5, nine failures fit a window-length while its record is neither evicted nor cleared, and at most 4096 keys are tracked |
| LoginProtocol.QueueBound | src/admin_auth.rs:198-199 | Over every run one login holds the hash and at most four remote ones wait for it or hold it |
| LoginProtocol.SentAwayExactly | src/admin_auth.rs:319-331 | At every moment of every run a login that queues is sent away exactly when it is remote and at least four are queued already |
| LoginProtocol.ChecksAreExact | src/admin_auth.rs:314-336 | Both lock checks let a login pass exactly when neither its key's five nor, unless it is loopback, the fifty of all remote addresses hold it |
| LoginProtocol.LockedForCause | src/admin_auth.rs:259-277 | Over every run an address is held only if its own key had five wrong passwords within the last window-length, or, unless it is loopback, remote addresses had fifty |
| LoginProtocol.LoneLoginIsARun | src/admin_auth.rs:314-351 | A login with no other under way is a run of the protocol and leaves the same records |
| LoginProtocol.AllowedIsExact | src/admin_auth.rs:259-351 | The series of failures that runs of logins leave under a loopback key are exactly the allowed ones |
| LoginProtocol.NineWrongPasswords | src/admin_auth.rs:53-55 | A run of logins with nine wrong passwords of one address in one window-length of time |
| Seeds.Supervisor.Tick | src/main.rs:2156-2217 | One tick as a relation of old and new state: who is kept, aborted, given up on (`EndedIsGivenUp`) and started |
| Seeds.Supervisor.Retain | src/main.rs:2185-2198 | Exactly the wanted unfinished loops stay, the finished are given up on, the unwanted aborted |
| Seeds.TickInv | src/main.rs:2156-2217 | A tick keeps running and given-up disjoint and together the wanted seeds, and every live loop owned |
| Seeds.RunningIsDesiredLessGivenUp | src/main.rs:2143-2219 | At every moment of every run, running seeds are the wanted less the given-up and no seed has two live loops |
| Seeds.UntouchedLoops | src/main.rs:2137-2138 | A wanted loop that has not ended is neither restarted nor aborted, and a missing one is started |
| Seeds.GivenUpStays | src/main.rs:2148-2152 | While the list stays the same a given-up seed stays so and no loop is started for it |
| Seeds.EndedIsGivenUp | src/main.rs:2170-2198 | On every tick the seeds given up on are those that were, while the list stays the same, and the wanted ones whose loop has ended; these do not run and no loop is started for them |
| Seeds.NoLoopAfterEnd | src/main.rs:2145-2217 | Over every run, from the moment the loop of a wanted seed has ended no further loop is started for it while the list stays the same |
| Seeds.ChangedListRetries | src/main.rs:2170-2198 | After a change exactly the seeds whose loop has just ended are not running |
| Seeds.EndedLoopGetsNoRetry | src/main.rs:2170-2198 | A run in which a loop ends in the minute its list changes and its seed is not started again |
| LoadGen.Mix | examples/loadgen.rs:49-53 | The reassigned argument ends as the mixed word, from which the counter can be recovered |
| LoadGen.MixIsBijective | examples/loadgen.rs:49-53 | The finaliser and its explicit inverse undo each other on all 64-bit words |
| LoadGen.DistinctCountersNeverCollide | examples/loadgen.rs:49-53 | Two counters give the same hash word if and only if they are equal |
| LoadGen.Itoa | examples/loadgen.rs:105-117 | The backward fill never leaves its 20 bytes and gives the decimal digits of the number |
| Decimals.DecimalReadsBack | examples/loadgen.rs:105-117 | Those digits are canonical and read back as the number |

## Left out

- UdpForgetting.ForgettingLosesNothing: no packet may find the swept table full, because a full table does make forgetting visible.
- UdpForgettingShows.ForgettableIffRenewed: rate and burst are positive, as the configuration requires, and readings are at least a second before the end of the clock's range.
- UdpForgettingShows.UntimelyReturnShows: shown when no other packet is under way and the server-wide budget can pay for the two packets.
- UdpSourceBudget.SourceBudget: only for runs in which forgotten sources come back to a full bucket; otherwise it fails, as `OvertakingBreaksTheBudget` shows.
- UdpSourceBudget.DriftStaysBelowOneMicrosecond: says nothing after the first packet that the kept bucket would decide differently.
- UdpProtocol.WindowBudget: rounds the window up to a whole microsecond, the grain in which buckets credit time.
- ClientSlots.StepInv: the gauge is unbounded; four thousand million slots held at once would wrap the 32-bit word.
- ClientSlots.HeldWithinCeiling: for one fixed ceiling; a ceiling lowered while slots are held evicts nobody.
- TokenBuckets.RefillIsExact: clock readings are below 2^64 microseconds, which the cast in the source needs as well.
- LoginProtocol.KeyBound: says nothing across an eviction or a right password, which both start the record afresh.
- LoginProtocol.GlobalBound: a login abandoned while its hash is checked is not counted, as in the source.
- AdminAuth.Auth.NewSession: the token is a parameter, in place of the random source.
- AdminAuth.Auth.LockedFor: time is unbounded; overflow of the clock type is not modelled.
- BotIpFilters.Reassert: an unreadable file that the loop itself would create is left unspecified.
- BotIpFilters.TextFile.Remember: the time stamp is a parameter without white space.
- Zip.RoundTrip: decompression is a parameter; deflate itself is not modelled.
- HashLists.MergeAgain: the stamp is one line, as the date format used gives.
- Seeds.RunningIsDesiredLessGivenUp: an aborted loop counts as ended at once; in the source it runs to its next await.
- Compare-and-swap steps may fail spuriously for ever; no claim is made that a retrying task finishes.
- Text is a sequence of characters, names sequences of bytes; lossy UTF-8 decoding is not modelled.
- SQLite, the concurrent maps, mutexes and semaphores are maps, atomic steps and counts; fsync and partial writes are not modelled.
- MD5 digests of names, users and networks are uninterpreted functions; SHA-256, PBKDF2 and Ed25519 do not appear.
- Backups.Directory.InstallAtomic: fsync, and a crash between its steps, are not modelled; the name is only ever changed by the final rename.
- Backups.Generations: about runs without I/O failures.
- HTTP download, signatures, the collapse ratio and the other validators of the update client.
- The hit report and the total of hits, the log ring, the waiting of pools and queued searches, relay budgets and readiness.
- The web panel, TLS, configuration, health and GeoIP modules, and the rest of the server's start-up.
