# QuantBR feed and signal verification

A Dafny model of the parts of QuantBR that carry state, with proofs about whole runs of them.
`dafny verify dfyconfig.toml` checks everything.

## What is modelled

- **Market data packets** (`Bytes`, `Decimal`, `Umdf`, `UmdfEncoding`, `UmdfParser`, `GapLaws`): the byte-level parser
  of UMDF datagrams with its sequence tracking. The callbacks a parse fires are returned as an ordered list of events.
  `UmdfEncoding` is an independent encoder with its own statement of what each message means.
- **Order books** (`L2Book` in `OrderBook.dfy`, `Feed`): the two price maps of a book, its trade totals and snapshot,
  the manager of all books, and the quote and trade callbacks of the feed process with what they publish.
- **Two redundant channels** (`Shuffles`, `Channels`, `SnapshotLaws`, `ChannelLoss`, `ChannelExamples`): both receive
  loops feed one parser. Each packet is one atomic step; an interleaving is any order that keeps each channel's own
  order. Either channel may lose packets.
- **FIX order entry** (`FixText`, `StepClient`, `FixRoundTrip`, `FixRequests`, `FixVenue`): message building, checksum,
  stream framing, tag extraction, and whole runs of a client whose socket calls may fail.
- **Volume profile and order flow** (`VolumeProfile`, `ValueAreaLaws`, `ProfileLaws`, `LevelLaws`, `OrderFlow`,
  `Subscriber`).
- **Indicators and signals** (`RealSeqs`, `Indicators`, `IndicatorLaws`, `BollingerLaws`, `SignalEngine`,
  `EngineLaws`, `SignalLaws`, `ResetLaws`, `StrengthLaws`). An indicator keeps a ghost history of what it has seen since
  its last reset; its validity ties the running state to a function of that whole history.
- **Rate limiter** (`RateLimiter`): the per-user Redis counter with expiry.

`Collections` holds the sequence helpers they share. Objects with mutable fields are classes. Each method is tied to a
function on values, and the properties of runs are lemmas about those functions; what is published (gap reports,
snapshots, acknowledgements, messages, profiles, flow, signals) is also read off the whole input by a law that does not
use that function. Prices are integers in units of 10^-8 in the feed and reals in the backend; quantities are unbounded
integers. `math.sqrt` is a parameter `root`; lemmas that need it assume only that it is the nonnegative square root.

## Where code and documentation differ

The model follows the code; each difference is a lemma.

- Duplicate packets are processed again, not dropped (`feed/src/session_manager.cpp:114`, `docs/feed.md:169`):
  `DuplicatesAreProcessedAgain`. The books converge all the same (`ChannelsConverge`); traded figures double. When one
  channel loses packets, or both do, `LossyChannelsConverge` and `TwoLossyChannelsConverge` say exactly when they still
  converge; `LostRemovalStays` is a case where they do not.
- A trade counts only once its security has been quoted, so traded quantity doubles when the first event is a quote,
  and with positive quantities only then: `DoublesExactlyWhenQuoteFirst`, with `EarlyTradeDoesNotDouble` as a case.
- BodyLength is 5 below its definition in FIX 4.4: `BodyLengthIsFiveShort`.
- A field whose tag ends in 10, or whose value holds "10=", is framed wrongly: `FramesExactlyWhenClean` is exact, and
  `SentIsClean` states it of the texts a caller supplies.
- Signal strength is documented as 0.0 to 1.0 (`backend/app/signals/base.py:11`). RSI strengths are
  (`StrengthBounds`). A Bollinger strength is exactly when the newest price is within its bands
  (`BandStrengthInRange`; `BandStrengthCanExceedOne`), and a VWAP_CROSS strength exactly when the price is the VWAP or
  lies between 0 and twice a positive VWAP (`CrossStrengthInRange`; `CrossStrengthCanExceedOne`).
- A reset instrument is not a fresh one: `ResetIsFreshExactly` says when no later trade can tell; `ResetThenSell` is a
  run where the first one does.
- A trade can raise a division by zero, exactly under the guard in `RaisesExactly`, and then its crossing is lost.
  VWAP_CROSS directions alternate exactly when the crossings lost between consecutive ones pair up
  (`SignalsAlternateExactly`; `AlternationNeedsNoDivision`), and always with positive prices and quantities.
- A rejected user is told the whole minutes left, rounded down, so waiting them can be too short:
  `ReportedMinutesSuffice` is exact, `ReportedMinuteTooShort` is a case.

## Model

| member | source | states |
|---|---|---|
| Umdf.StructSizes | feed/include/umdf_parser.h:22-63 | the packed header, snapshot and entry layouts occupy 13, 68 and 45 bytes |
| Bytes.BigEndianRoundTrip | feed/src/umdf_parser.cpp:30-32 | reading a big-endian field gives back the number written, for every width |
| Bytes.HighBytesFirst | feed/src/umdf_parser.cpp:30-32 | the most significant byte of a field comes first |
| Bytes.OneByte | feed/src/umdf_parser.cpp:30-32 | a field of one byte is that byte |
| Bytes.SignedRoundTrip | feed/src/umdf_parser.cpp:84-90 | two's-complement prices and quantities read back, negative ones included |
| Bytes.SignedIs | feed/src/umdf_parser.cpp:84-90 | a signed field reads as the one number of its range that agrees with the bytes modulo the field size |
| Bytes.SplitJoin | feed/src/umdf_parser.cpp:76-77 | laying a packed layout over concatenated fields, whatever follows, gives those fields |
| UmdfEncoding.IdRoundTrip | feed/src/umdf_parser.cpp:95-96 | a security id of up to seven digits, leading zeros included, survives its ASCII field whatever follows its NUL |
| UmdfEncoding.SnapshotRoundTrip | feed/src/umdf_parser.cpp:73-121 | a snapshot body decodes to the one event it stands for, or none for other entry types |
| UmdfEncoding.EntriesRoundTrip | feed/src/umdf_parser.cpp:123-172 | the entries of an incremental refresh decode to their events, all of them and in order |
| UmdfEncoding.CutEncoded | feed/src/umdf_parser.cpp:42-64 | the message loop finds exactly the messages encoded, ignoring bytes after them |
| UmdfEncoding.PacketRoundTrip | feed/src/umdf_parser.cpp:17-67 | any well-formed packet of snapshot, incremental and unknown messages, whatever their unread type byte, followed by any bytes, is defined to parse and yields exactly its events and its message count; an empty one is a heartbeat |
| Umdf.TruncatedCut | feed/src/umdf_parser.cpp:42-49 | cutting the buffer anywhere keeps a prefix of the messages |
| Umdf.Truncation | feed/src/umdf_parser.cpp:17-67 | truncating any datagram yields a prefix of its events and never makes it less safe to parse |
| UmdfParser.UMDFParser.Parse | feed/src/umdf_parser.cpp:17-67 | one parse fires the gap report first, then the payload's events in order, counts the whole messages, and remembers the sequence number; short datagrams change nothing |
| UmdfParser.UMDFParser.ParseMessages | feed/src/umdf_parser.cpp:38-66 | the cursor loop visits exactly the whole messages the packet holds |
| UmdfParser.UMDFParser.HandleSnapshot | feed/src/umdf_parser.cpp:73-121 | the snapshot handler fires the decoded event |
| UmdfParser.UMDFParser.HandleIncremental | feed/src/umdf_parser.cpp:123-172 | the entry loop fires the events of all whole entries |
| UmdfParser.UMDFParser.HandleEntry | feed/src/umdf_parser.cpp:133-171 | one entry fires a quote on its side, a trade with aggressor from the update action, or nothing |
| UmdfParser.DuplicatesAreProcessedAgain | feed/src/umdf_parser.cpp:23-26 | a repeated packet is not dropped: it is reported as a gap and all its events fire again |
| UmdfParser.GapsAddUp | feed/src/umdf_parser.cpp:23-26 | over any strictly increasing run of nonzero sequence numbers the reported gaps sum to the span less the packets received |
| GapLaws.GapsAreExactly | feed/src/umdf_parser.cpp:21-26 | over every run of datagrams, in any order, the gaps reported are in order exactly one for each number that does not follow the one before it in 32 bits, with the number expected and the one received; none after number 0, and short datagrams count for nothing |
| GapLaws.NoGapExactly | feed/src/umdf_parser.cpp:21-26 | a run reports no gap if and only if every number follows the one before it |
| GapLaws.InOrderReportsNothing | feed/src/umdf_parser.cpp:21-26 | packets 1 and 2 fire their own events and nothing else |
| GapLaws.MissedCountsAddUp | feed/src/umdf_parser.cpp:21-26 | for every run of nonzero numbers the missed counts add up to the span less the packets received, up to a multiple of 2^32 |
| L2Book.BestExists | feed/src/order_book.cpp:41-47 | a nonempty side has a first price in its own order |
| L2Book.TopIsBest | feed/src/order_book.cpp:80-92 | the first n levels are exactly the min(n, size) best, strictly ordered, with their quantities |
| L2Book.LastWriteWins | feed/src/order_book.cpp:16-31 | after any history a side holds exactly the prices whose last write is not zero, with that write; no stored quantity is zero |
| L2Book.SnapshotReadsHistory | feed/src/order_book.cpp:68-95 | the published side read off the history alone: at most five levels, each the last nonzero write at its price, best first, none better left out, and all of them when fewer than five |
| L2Book.OrderBook.constructor | feed/src/order_book.cpp:9-14 | a new book is empty |
| L2Book.OrderBook.ApplyBid | feed/src/order_book.cpp:16-23 | a bid write or removal changes one bid price and nothing else |
| L2Book.OrderBook.ApplyAsk | feed/src/order_book.cpp:25-31 | an ask write or removal changes one ask price and nothing else |
| L2Book.OrderBook.ApplyTrade | feed/src/order_book.cpp:33-39 | a trade updates the last trade and both running totals, and no side |
| L2Book.OrderBook.BestBid | feed/src/order_book.cpp:41-43 | the best bid is the highest bid price, at the head of the published bids, or 0 |
| L2Book.OrderBook.BestAsk | feed/src/order_book.cpp:45-47 | the best ask is the lowest ask price, at the head of the published asks, or 0 |
| L2Book.OrderBook.FirstFive | feed/src/order_book.cpp:80-92 | the copying loop lists the first five levels |
| L2Book.OrderBook.Snapshot | feed/src/order_book.cpp:68-95 | a snapshot reports both tops and the trade figures of the book |
| Feed.BookManager.GetOrCreate | feed/src/order_book.cpp:99-109 | a new book is empty and takes its symbol from the first quote; existing books are untouched |
| Feed.CStringCuts | feed/src/order_book.cpp:9-14 | a book name is the first eleven bytes of the symbol field, up to a NUL |
| Feed.BookManager.OnQuote | feed/src/main.cpp:55-61 | a quote opens its book if needed, writes each positive side, leaves other books alone, and publishes the book's snapshot |
| Feed.BookManager.OnTrade | feed/src/main.cpp:63-70 | a trade updates and publishes an existing book, never opens one, and is itself published either way |
| Feed.BookManager.Dispatch | feed/src/main.cpp:55-79 | events reach the callbacks in order, and so does what they publish |
| Feed.EveryTradeIsPublished | feed/src/main.cpp:63-70 | over any run every trade is published exactly once and in order, whether or not a book counts it |
| Feed.LastUpdateIsCurrent | feed/src/main.cpp:55-70 | the last snapshot published for a security shows its book as it now is; a security without a book has had none |
| Shuffles.ShuffleFlatMap | feed/src/session_manager.cpp:107-117 | expanding packets into events keeps an interleaving an interleaving |
| Shuffles.ShuffleEnds | feed/src/session_manager.cpp:107-117 | two copies of one sequence, however interleaved, start and end as one copy does |
| Channels.Session.RecvLoop | feed/src/session_manager.cpp:107-117 | both channels feed one parser whose events update the books and are published; nothing is dropped |
| Channels.BookExists | feed/src/main.cpp:55-61 | a book exists exactly when its security was quoted, and is named by its first quote |
| Channels.SideIsLastWrite | feed/src/main.cpp:55-61 | each side of each book is the last-write map of that security's quotes |
| Channels.TradesAreCounted | feed/src/main.cpp:63-70 | a book's traded quantity, value and last trade are those of the trades after its first quote |
| SnapshotLaws.LastUpdateReadsStream | feed/src/order_book.cpp:68-95 | for every event stream and quoted security, the last snapshot published read off the stream: its name from the first quote, bids the five highest and asks the five lowest prices still quoted, in order and with the quantities last written, last trade, quantity, value and VWAP of the trades since the first quote |
| SnapshotLaws.OneUpdateEach | feed/src/main.cpp:55-70 | one update is published for each quote and each counted trade |
| Channels.RunShuffle | feed/src/session_manager.cpp:107-117 | what the books see of an interleaved run is an interleaving of what they see of each copy |
| Channels.ChannelsConverge | feed/src/session_manager.cpp:107-117 | for every interleaving of two complete copies, the set of books, their symbols and both sides end as after one copy |
| Channels.TradedFiguresDouble | feed/src/order_book.cpp:33-39 | when a security's first event is a quote, traded quantity and value come out exactly doubled, VWAP and last trade unchanged |
| Channels.FillsConserved | feed/src/main.cpp:63-70 | every trade is either counted in a book or lost for want of one |
| Channels.BackToBackTotal | feed/src/main.cpp:63-70 | playing one copy and then the other adds every trade once more, lost ones included |
| Channels.DoublesExactlyWhenQuoteFirst | feed/src/main.cpp:63-70 | with positive quantities the total doubles under every interleaving if and only if the security's first event is a quote |
| ChannelLoss.LossKeepsBooks | feed/src/session_manager.cpp:107-117 | when one channel loses packets the books that exist are still those of the full copy |
| ChannelLoss.LossyChannelsConverge | feed/src/session_manager.cpp:107-117 | when one channel loses packets, all books and both their sides end as after one full copy under every interleaving if and only if at every price what is left writes nothing or writes last what the full copy writes last |
| ChannelLoss.TwoLossyChannelsConverge | feed/src/session_manager.cpp:107-117 | when both channels lose packets, all books and both their sides end as after the full copy under every interleaving if and only if every quoted security is still quoted on one of them and at every price each writes nothing or writes last what the full copy does, neither writing only where the copy leaves no level |
| ChannelExamples.LostRemovalStays | feed/src/session_manager.cpp:107-117 | two encoded packets, a bid and its removal, of which the lagging channel delivers only the bid: the bid stays in the book |
| ChannelExamples.EarlyTradeDoesNotDouble | feed/src/main.cpp:63-70 | an encoded packet with a trade before the first quote: one copy counts nothing, two copies count the trade once |
| FixText.CheckSumDetects | feed/src/step_client.cpp:242-249 | replacing any one byte of a message by another changes its checksum |
| FixText.CheckSumReads | feed/src/step_client.cpp:242-249 | the three digits stand for the sum of all bytes modulo 256 |
| FixText.ByteSumParts | feed/src/step_client.cpp:242-249 | the sum of bytes is 0 for the empty text and adds up over parts |
| FixText.PrintedIntReads | feed/src/step_client.cpp:32-37 | a printed number is its decimal digits, most significant first, after a minus sign when negative |
| FixText.CleanHasNoMark | feed/src/step_client.cpp:32-42 | the text of fields holds "10=" exactly when a tag ends in 10 or a value holds it |
| StepClient.StepClient.ComputeCheckSum | feed/src/step_client.cpp:242-249 | the 32-bit summing loop gives the sum of all bytes modulo 256 in three digits, wraparound included |
| StepClient.StepClient.Connect | feed/src/step_client.cpp:58-94 | a reachable venue gets a logon with the next sequence number, otherwise nothing is sent; the answer says which |
| StepClient.StepClient.Send | feed/src/step_client.cpp:107-179 | with a connection an order request goes out as header, body and checksum under the next sequence number, which is used up even if the socket refuses it; without one nothing changes; the answer is that of the socket |
| StepClient.FirstLengthStable | feed/src/step_client.cpp:194-198 | a complete first message is not changed by bytes that arrive after it |
| StepClient.FrameAppend | feed/src/step_client.cpp:186-198 | framing resumes from the residue |
| StepClient.ReceiveIsFrame | feed/src/step_client.cpp:186-198 | however the stream is cut into chunks, messages and residue are those of one single read |
| StepClient.StepClient.RecvLoop | feed/src/step_client.cpp:182-230 | the receive loop acknowledges each execution report among the chunk-wise frames, in order, with its own tags 11, 37, 39 and 58, keeps the residue, and ends disconnected |
| StepClient.StepClient.SplitMessages | feed/src/step_client.cpp:193-226 | the inner loop takes every complete message off the accumulator |
| StepClient.StepClient.HandleMessage | feed/src/step_client.cpp:200-224 | only execution reports are acknowledged, with client id 11, venue id 37, status 39 and text 58 |
| FixRoundTrip.FramesExactlyWhenClean | feed/src/step_client.cpp:191-198 | the framer gives back exactly the messages built if and only if no field has a tag ending in 10 or a value holding "10=" |
| FixRoundTrip.ExtractFindsFirst | feed/src/step_client.cpp:200-213 | extract on any built message, whatever bytes its values hold: the first field with the tag gives its value up to an SOH, a value holding SOH and the tag gives what follows there, the leading field's tag is never seen |
| FixRoundTrip.PlainFieldsRead | feed/src/step_client.cpp:200-213 | when no value holds SOH that is the value of the first non-leading field with the tag, or nothing |
| FixRoundTrip.AckReadsFields | feed/src/step_client.cpp:215-223 | an acknowledgement carries the values of the sender's fields |
| FixRoundTrip.SegmentationDoesNotMatter | feed/src/step_client.cpp:182-230 | for any list of messages and any chunks, exactly those messages come out and nothing is kept back if and only if all are clean; their execution reports are then the acknowledgements |
| FixRoundTrip.ReportsReachTheCaller | feed/src/step_client.cpp:182-230 | for clean messages without SOH in their values and any chunking, what is acknowledged is one entry per execution report, in order, with the ids, the status and the text its fields hold |
| FixRequests.SentIsClean | feed/src/step_client.cpp:77-175 | a message is clean if and only if no supplied text it prints holds "10=" |
| FixRequests.SentIsSohFree | feed/src/step_client.cpp:77-175 | its values hold no SOH if and only if no supplied text it prints does |
| FixRequests.SeqNumReadsBack | feed/src/step_client.cpp:107-131 | all sequence numbers read back from the messages sent if and only if neither session name holds SOH and "34=" |
| FixRequests.OrderIdsRead | feed/src/step_client.cpp:107-179 | what the order id tags read as in orders, cancels and replaces, whatever the texts hold |
| FixRequests.OrderIdsReadBack | feed/src/step_client.cpp:107-179 | unless a session text mimics their tags, the ids of orders, cancels and replaces read back if and only if they hold no SOH, a replace's new id unless the original id before it mimics its tag |
| FixVenue.VenueReads | feed/src/step_client.cpp:80-177 | of every message without SOH in its texts: the version first, and under its own tag the session, number, time, type and every text and quantity of the request; extract reads the same |
| FixVenue.QuantitySent | feed/src/step_client.cpp:124 | the quantity printed is the one 32-bit number that agrees with the order's modulo 2^32 |
| FixRequests.RunIsNumbered | feed/src/step_client.cpp:58-179 | over any run of connecting, sending and losing the connection, whatever the socket answers, the messages handed over are numbered from 1 without gap or repetition |
| FixRequests.SentRunReadsBack | feed/src/step_client.cpp:58-198 | a run of requests, however segmented, is framed into exactly the messages sent if and only if no printed text holds "10=", and the sequence numbers read are then consecutive unless a session name mimics their tag |
| FixRequests.BodyLengthIsFiveShort | feed/src/step_client.cpp:232-240 | the declared BodyLength is always 5 below the one FIX 4.4 defines |
| VolumeProfile.VolumeProfile.Update | backend/app/indicators/volume_profile.py:48-53 | a trade adds its quantity to one key of one side |
| VolumeProfile.FirstMax | backend/app/indicators/volume_profile.py:73-78 | the point of control is the first of the largest levels |
| VolumeProfile.RangeAfter | backend/app/indicators/volume_profile.py:82-98 | after n extensions the range has n + 1 levels, contiguous, around the point of control |
| ValueAreaLaws.NextRange | backend/app/indicators/volume_profile.py:84-98 | whatever the volumes, the next range takes the level below if there is one and it is no smaller than the one above or there is none above, and otherwise the level above |
| ValueAreaLaws.TieGoesBelow | backend/app/indicators/volume_profile.py:90-92 | volumes 3, 5 and 3: the area is the lower two levels |
| VolumeProfile.VolumeProfile.GrowValueArea | backend/app/indicators/volume_profile.py:82-98 | the loop terminates for any volumes and stops at the first range that holds 70%, or at all levels |
| VolumeProfile.VolumeProfile.IndexOfPoc | backend/app/indicators/volume_profile.py:73-78 | the search keeps the first of equal maxima |
| VolumeProfile.VolumeProfile.Result | backend/app/indicators/volume_profile.py:55-107 | the published result is that of the recorded volumes; none when there are no levels or no volume |
| ValueAreaLaws.LastResortUnreachable | backend/app/indicators/volume_profile.py:96-98 | with nonnegative volumes the third branch is never taken |
| ValueAreaLaws.StopsAtFirstEnough | backend/app/indicators/volume_profile.py:83-98 | the loop stops at the first range with enough volume, no earlier range having it |
| ValueAreaLaws.ValueAreaGuarantee | backend/app/indicators/volume_profile.py:73-98 | for nonnegative volumes the area surrounds the point of control with at least 70%, and less than 70% without the last level added |
| ValueAreaLaws.DominatingIsBest | backend/app/indicators/volume_profile.py:83-98 | no set of as many levels beats one whose members are all at least as large as the rest |
| ValueAreaLaws.GreedyDominates | backend/app/indicators/volume_profile.py:88-98 | on a single peak every level inside stays at least as large as every level outside |
| ValueAreaLaws.ValueAreaIsOptimal | backend/app/indicators/volume_profile.py:76-98 | on a single-peaked profile no set of fewer levels holds 70% of the volume, whatever positive total it is measured against |
| ValueAreaLaws.OptimalExactlyOnOnePeak | backend/app/indicators/volume_profile.py:76-98 | the greedy area is that small for every positive total if and only if the profile has a single peak |
| ValueAreaLaws.TwoPeaksNotOptimal | backend/app/indicators/volume_profile.py:76-98 | volumes 5, 1 and 4: the greedy area takes all three levels where the two outer ones hold 70% |
| ProfileLaws.ProfileConserves | backend/app/indicators/volume_profile.py:60-69 | level volumes sum to all traded quantity and deltas to bought less sold |
| LevelLaws.LevelsReadTrades | backend/app/indicators/volume_profile.py:45-69 | over every run of trades the levels ascend; each is a whole number of ticks and holds just what was bought and what was sold nearest to it, ties to the even tick; every tick traded nearest to has its level |
| LevelLaws.KeyIsNearest | backend/app/indicators/volume_profile.py:45-46 | the key of a price is the nearest number of ticks, the even one of two equally near |
| ProfileLaws.OrderDoesNotMatter | backend/app/indicators/volume_profile.py:48-53 | any reordering of the trades gives the same profile and result |
| ProfileLaws.ProfileGuarantee | backend/app/indicators/volume_profile.py:55-107 | a profile is published exactly when something was traded; its point of control is the lowest price of greatest volume, inside a value area holding 70% |
| ProfileLaws.BoundsAreGrown | backend/app/indicators/volume_profile.py:71-107 | over every run of trades the published bounds are those of the range grown from the published point of control by the rule to the first that holds 70%, or to all levels |
| OrderFlow.OrderFlowDelta.Update | backend/app/indicators/delta.py:37-46 | volumes, cumulative delta and the bounded history always describe all trades seen |
| OrderFlow.OrderFlowDelta.BuyPct | backend/app/indicators/delta.py:68-70 | the bought share of all quantity, 50 when nothing was traded |
| Subscriber.FlowReadsTrades | backend/app/feed/subscriber.py:121-132 | the published flow: what was bought and sold, their difference, the bought share, and the differences after each of the last twenty trades |
| Subscriber.StripCuts | backend/app/feed/subscriber.py:102 | a symbol loses the NULs at its ends and nothing else |
| Subscriber.AccumulatorsAgree | backend/app/feed/subscriber.py:121-158 | profile, order-flow delta and VWAP count the same quantity, and profile delta is order-flow delta |
| Subscriber.FeedSubscriber.HandleTrade | backend/app/feed/subscriber.py:101-174 | one message updates the three accumulators of its symbol and publishes their values; a message publishes nothing if and only if it has no symbol or its price is 0 |
| Subscriber.FeedSubscriber.ObjectsAgree | backend/app/feed/subscriber.py:121-158 | the objects held for a symbol agree after every run of messages |
| Indicators.RollingBuffer.Push | backend/app/indicators/base.py:31-32 | a push keeps the newest values up to the limit |
| Collections.WindowPush | backend/app/indicators/base.py:27-32 | pushing into a bounded window is windowing the longer history |
| IndicatorLaws.WindowHoldsNewest | backend/app/indicators/base.py:27-32 | a window holds the newest values, in order |
| RealSeqs.SlideSum | backend/app/indicators/moving_average.py:10-14 | dropping the oldest and adding the newest keeps the total exact |
| Indicators.SMA.Update | backend/app/indicators/moving_average.py:10-14 | the running total stays the sum of the last period values of the whole history |
| Indicators.SMA.Value | backend/app/indicators/moving_average.py:16-19 | the mean of the last period values, none before the window is full |
| IndicatorLaws.SmaReadsHistory | backend/app/indicators/moving_average.py:16-19 | none before period values, then period times the value is the sum of the newest period |
| Indicators.EMA.Update | backend/app/indicators/moving_average.py:33-38 | the stored value follows the recurrence over the whole history |
| Indicators.EMA.Value | backend/app/indicators/moving_average.py:40-43 | none before period values |
| IndicatorLaws.EmaStep | backend/app/indicators/moving_average.py:25-38 | period + 1 times the new average is twice the new value and period - 1 times the old average |
| IndicatorLaws.EmaClosedForm | backend/app/indicators/moving_average.py:33-38 | the EMA is the geometric-weight sum of the whole history |
| IndicatorLaws.EmaInRange | backend/app/indicators/moving_average.py:33-38 | the EMA stays between the least and greatest value seen |
| Indicators.RSI.Update | backend/app/indicators/rsi.py:14-33 | the averages follow the whole history of moves |
| Indicators.RSI.Value | backend/app/indicators/rsi.py:35-42 | none until period moves; then the no-loss, flat and general cases |
| IndicatorLaws.RsiReadsHistory | backend/app/indicators/rsi.py:14-42 | RSI of every history: none up to period prices, then v (g + l) = 100 g for the smoothed gains g and losses l, and 50 without moves |
| IndicatorLaws.RsiOfNeverFalling | backend/app/indicators/rsi.py:14-42 | a history that never falls has RSI 100 if a rise still counts, any one or with period 1 the latest, and 50 otherwise |
| IndicatorLaws.RsiOfNeverRising | backend/app/indicators/rsi.py:14-42 | its mirror image has RSI 0, or 50 |
| IndicatorLaws.WilderClosedForm | backend/app/indicators/rsi.py:24-31 | averages are the seeded mean, then geometric weights on all later moves |
| IndicatorLaws.RsiIsShare | backend/app/indicators/rsi.py:38-42 | RSI is the share of gains in all movement, special cases included |
| IndicatorLaws.RsiBounded | backend/app/indicators/rsi.py:35-42 | RSI lies in 0..100 |
| IndicatorLaws.AffineMoves | backend/app/indicators/rsi.py:19-22 | a change of scale scales the moves, and a negative one exchanges gains and losses |
| IndicatorLaws.RsiAffine | backend/app/indicators/rsi.py:14-42 | over every history, positive scaling and shifts leave RSI unchanged and reflection turns v into 100 - v |
| Indicators.BollingerBands.Update | backend/app/indicators/bollinger.py:22-24 | the window and last price follow the whole history |
| Indicators.BollingerBands.Value | backend/app/indicators/bollinger.py:26-37 | the bands of the last period values; none before the window is full |
| BollingerLaws.BandsReadHistory | backend/app/indicators/bollinger.py:26-37 | the middle is the mean of the newest period values, both bands lie numStd standard deviations from it, the bandwidth is their distance in units of the middle |
| BollingerLaws.SquareOfSum | backend/app/indicators/bollinger.py:30-31 | the squared sum is at most the count times the sum of squares |
| BollingerLaws.Samuelson | backend/app/indicators/bollinger.py:30-31 | the newest value is at most sqrt(n - 1) standard deviations from the mean |
| BollingerLaws.VarianceZeroIffFlat | backend/app/indicators/bollinger.py:31-32 | the variance is zero exactly for a flat window |
| BollingerLaws.PctBIsDeviation | backend/app/indicators/bollinger.py:33-36 | percent B is the newest deviation in band widths; the bands straddle the mean |
| BollingerLaws.PctBBound | backend/app/indicators/bollinger.py:33-36 | the spread is zero exactly for flat windows; otherwise (pctB - 1/2)^2 * 4 * numStd^2 <= period - 1 |
| BollingerLaws.SamuelsonIsTight | backend/app/indicators/bollinger.py:30-31 | the bound is attained for every window length from two up |
| Indicators.SessionVWAP.UpdateTrade | backend/app/indicators/vwap.py:14-16 | both sums cover every trade since the reset |
| Indicators.SessionVWAP.Value | backend/app/indicators/vwap.py:18-21 | the ratio of the sums, none when the quantity is zero |
| IndicatorLaws.VwapBalances | backend/app/indicators/vwap.py:18-21 | none at zero quantity, otherwise value times quantity is the traded value |
| SignalEngine.VWAPCrossSignal.Evaluate | backend/app/signals/engine.py:58-74 | a crossing is reported when the side changes; the remembered side is updated first |
| SignalEngine.InstrumentState.OnTrade | backend/app/signals/engine.py:87-92 | one trade reaches all five indicators |
| SignalEngine.InstrumentState.SessionReset | backend/app/signals/engine.py:94-99 | a reset empties all five indicators |
| SignalEngine.SignalEngine.OnTrade | backend/app/signals/engine.py:113-131 | a trade creates or updates only its own instrument and returns the signals of its history, or raises on a zero VWAP |
| SignalLaws.OutcomeReadsHistory | backend/app/signals/engine.py:113-131 | what a trade returns unless it raises: an RSI BUY when 7 g < 3 l and SELL when 3 g > 7 l, then a Bollinger BUY or SELL beyond 1.8 standard deviations, then a crossing BUY above and SELL below the VWAP, each with its strength; and the side remembered |
| SignalLaws.RisingIsOverbought | backend/app/signals/engine.py:21-32 | a history that rises at every step gives a SELL of strength 1, its mirror image a BUY |
| SignalEngine.SignalEngine.SessionReset | backend/app/signals/engine.py:133-139 | a reset clears the instruments it applies to, all of them for no or an empty symbol, and no remembered side |
| ResetLaws.ResetScope | backend/app/signals/engine.py:133-139 | a reset of one symbol clears its trades and no other's, one of none or of the empty symbol clears all, and no remembered side changes |
| EngineLaws.SymbolsDoNotInterfere | backend/app/signals/engine.py:104-139 | in every interleaved run a symbol's outcomes are those of the run projected on it |
| EngineLaws.CrossingsAlternate | backend/app/signals/engine.py:58-69 | a symbol's crossings strictly alternate over every run, resets included |
| EngineLaws.RaisesExactly | backend/app/signals/engine.py:58-74 | a trade raises if and only if it leaves a nonzero quantity sum and a zero price-quantity sum and puts its price on the other side of 0 than the remembered side |
| EngineLaws.SignalsAreCrossings | backend/app/signals/engine.py:58-74 | the VWAP_CROSS signals are all the crossings if and only if no trade raises |
| EngineLaws.SignalsAlternateExactly | backend/app/signals/engine.py:58-74 | over every run the returned VWAP_CROSS directions alternate if and only if the crossings lost to a raise between any two consecutive ones are even in number |
| EngineLaws.PositiveTradesNeverDivide | backend/app/signals/engine.py:58-74 | with positive prices and quantities no trade raises and the signals alternate |
| EngineLaws.AlternationNeedsNoDivision | backend/app/signals/engine.py:66-73 | a run with a negative quantity: one raise that leaves the signals alternating, and the SELL after it that repeats a SELL |
| ResetLaws.FirstTickAfterReset | backend/app/signals/engine.py:133-139 | the first trade after a reset is silent unless the remembered side was above and the trade has a quantity; then it returns a SELL of strength 0, or raises at price 0 |
| ResetLaws.MemoryAfterReset | backend/app/signals/engine.py:133-139 | after a reset the trades remembered are those of a fresh engine, and the side is the old one until the symbol trades a quantity and a fresh engine's from then on |
| ResetLaws.ResetIsFreshExactly | backend/app/signals/engine.py:133-139 | after any run and a reset, whatever follows returns what a fresh engine would if and only if the remembered side was not above or no quantity is traded from then on |
| ResetLaws.ResetThenSell | backend/app/signals/engine.py:133-139 | a reachable run: after trades at 10 and 20 and a reset, a trade at 30 returns a SELL where a fresh engine is silent |
| EngineLaws.VwapInRange | backend/app/indicators/vwap.py:14-21 | with positive quantities VWAP lies between the lowest and highest price |
| EngineLaws.CrossTestSeesOldVwap | backend/app/signals/engine.py:62 | with positive quantities the test against the updated VWAP equals the test against the VWAP before the trade |
| StrengthLaws.StrengthBounds | backend/app/signals/engine.py:21-49 | RSI strengths lie in (0, 1], Bollinger strengths satisfy (strength - 1/2)^2 * 16 <= 19, flat windows give no Bollinger signal |
| StrengthLaws.BandStrengthCanExceedOne | backend/app/signals/engine.py:45-48 | a spike after a flat stretch gives a Bollinger strength above 1, attaining the bound |
| StrengthLaws.BandStrengthInRange | backend/app/signals/engine.py:37-49 | a Bollinger strength is in 0..1 if and only if the newest price is within two standard deviations of the mean of its window |
| StrengthLaws.CrossStrengthInRange | backend/app/signals/engine.py:58-74 | a crossing's strength is in 0..1 if and only if the price is the VWAP, or the VWAP is positive and the price between 0 and twice the VWAP; it is negative if and only if the VWAP is and the price differs from it |
| StrengthLaws.StrengthsInRange | backend/app/signals/engine.py:113-131 | all strengths a trade returns are in 0..1 if and only if both conditions hold |
| StrengthLaws.CrossStrengthCanExceedOne | backend/app/signals/engine.py:68-74 | two ordinary trades give a crossing of strength 9 |
| RateLimiter.Limiter.CheckRateLimit | backend/app/api/v1/agents.py:144-156 | a call increments the live counter or opens a window, and is accepted exactly when the count is within the limit; a rejection reports the whole minutes of the server's answer |
| RateLimiter.CallsNeverExtendAWindow | backend/app/api/v1/agents.py:147-149 | no call, accepted or rejected, moves the end of a live window, and users do not affect each other |
| RateLimiter.RunIsBounded | backend/app/api/v1/agents.py:144-156 | the invariant of every nondecreasing run, in terms of the user's current window |
| RateLimiter.HourlyBound | backend/app/api/v1/agents.py:144-156 | any half-open hour lets through at most 2N - 1 messages of a user, none when N < 1 |
| RateLimiter.WindowLetsThroughLimit | backend/app/api/v1/agents.py:144-156 | a window lets through exactly the smaller of its calls and N |
| RateLimiter.HourlyBoundIsAttained | backend/app/api/v1/agents.py:144-156 | for every N >= 1 a schedule attains 2N - 1 |
| RateLimiter.RetryExactly | backend/app/api/v1/agents.py:144-156 | after a rejection, whatever calls come while the window is open, the next call is accepted if and only if it comes no earlier than the window's end and the limit is at least 1 |
| RateLimiter.ReportedMinutesSuffice | backend/app/api/v1/agents.py:150-156 | waiting the reported minutes is enough if and only if they are no shorter than the time left: for an exact answer in seconds, if and only if it is a multiple of 60 |
| RateLimiter.ReportedMinuteTooShort | backend/app/api/v1/agents.py:150-156 | limit 1, calls at 0 and 3510: one minute is reported and the call at 3570 is still rejected |

## Left out

- UmdfParser.UMDFParser.Parse: requires what the C++ parser's defined behaviour requires, namely that a reached snapshot
  or incremental message declares at least its own 4-byte header (`feed/src/umdf_parser.cpp:53` wraps below that) and
  that a snapshot's security id is terminated inside its field (`feed/src/umdf_parser.cpp:96`).
- UmdfEncoding.PacketRoundTrip: the encoder prints ids in digits, as the format does; the parser would also accept a
  field with leading blanks, a sign or trailing letters.
- Floating point rounding and the conversion of wire prices to `double`: arithmetic is exact.
- Overflow of 64-bit totals in a book and of the `int` sequence number of the FIX client.
- Data races between the two receive threads: a packet is one atomic step.
- All three parser callbacks and the acknowledgement callback are taken as installed, as `feed/src/main.cpp` does.
- A snapshot's `last_update_ns` and `order_count`, which the code never sets, and `mid` and `spread`.
- The publisher: JSON text and sockets. The callbacks return what they publish.
- FIX session details: heartbeats, timestamps (a parameter), partial writes, connecting twice, and formatting a price to
  four decimals (the price text is a parameter). `Send` stands for the three order requests, which share one shape.
- Signal timestamps and the rounded detail dictionaries; registering further signals.
- Redis writes in the subscriber, the tape and the strategy registry: pure output. A run with Redis failures is not
  represented.
- The redis server itself: a counter with an expiry, expired from the instant the expiry is reached; how it rounds the
  seconds it answers is a parameter. A crash between the increment and setting the expiry is not represented.
- BookImbalance, the `ta` helpers and DeltaBar: only easy members.
- JWT, roles, audit log, QuantLab sandbox, news and market fetchers, agents' streaming, and the frontend.
