# nntp-history: a verified model

nntp-history keeps an append-only file of article hashes (`history.dat`), an index from the first ten
characters of a hash to file offsets, a lock cache used when no database is configured, and the
goroutines and pools around them. This project models that code in Dafny and proves what it promises,
over every input and every run.

| file | models |
|---|---|
| `Types.dfy` | the reply codes, queue items and hash length that several parts share |
| `Strconv.dfy` | integer formatting, padding and parsing, string splitting |
| `OffsetText.dfy` | the int64 list codec and the SQL store that keeps offsets as comma-terminated text |
| `HistoryFile.dfy` | the line format, the `bufio` writer, and the two readers that seek into the file |
| `Header.dfy` | the zero-padded header |
| `IndexedHistory.dfy` | the hash database worker, the writer loop, and every interleaving of index inserts, line writes, searches read offset by offset, database failures, crashes and restarts |
| `SearchExactness.dfy` | what that machine promises its clients |
| `Durability.dfy` | which lines each step keeps, the writer's calls as steps of the machine, and reading back what was written |
| `ConcreteRuns.dfy` | two runs in which the purpose of the program is missed |
| `HexPrefixes.dfy` | the list of hex prefixes, built over shared Go slices, and its inverse map |
| `Dispatch.dfy` | dispatchers and workers as interleaved steps over channels, and what every step keeps |
| `Shutdown.dfy` | how that machine comes to rest: replies while it runs, what a shutdown answers, and when it jams |
| `WorkerTables.dfy` | which rows of the store a worker touches |
| `L1Cache.dfy` | the lock cache with its expiry queue |
| `Sharding.dfy` | the six sharding modes |
| `ConnPool.dfy` | the connection pool |
| `OffsetCache.dfy` | the L3 merge of offset lists |
| `Wire.dfy` | the client's text for a history object |

Code that changes state step by step is a class or a method whose contract equates the new state with a
function of the old one. The same functions are the steps of the state machines, and the theorems are
about every list of steps. A step that is not possible in a state leaves it unchanged, so the lists need
no side condition. Clocks, ping and connection outcomes, and database failures are parameters.

The main results:

* A search answers duplicate exactly when a whole line in the file carries the full hash, for lines of any
  length, however many hashes share the key, and through any number of crashes. A search interleaved with
  writes reports a duplicate only if the line is there when it answers and always if it was when it began.
* With lines of one length no search is ever told to retry, although a crash leaves stale offsets behind.
  With lines of different lengths it can be, exactly when the only offset under the key is misaligned;
  one such run is given.
* A hash is passed although it was accepted exactly while all its lines are still in the buffer, for lines
  of any length. The buffer holds less than its size in bytes or a single line: at most nine 102-byte lines
  by default. One run that accepts a hash twice this way is given.
* No step but a crash loses an accepted line, a failed insert and a clean stop put all of them into the
  file, and a hash once reported as a duplicate is reported for ever. Every field of an object handed to
  the writer reads back from its line, with ten dashes for an object that never expires.
* While no stop and fewer requests with offset 0 than dispatchers were sent, the system always comes to
  rest, and then every proper request with a return channel has had exactly one reply.
* A dispatcher that receives offset 0 dies silently. When no step is left, the proper requests with a
  return channel sent before the first stop have all been answered if and only if none of them was sent
  behind as many requests with offset 0 as there are dispatchers. For any number of dispatchers a run is
  given in which such a request is never answered.
* Once clients stop, every run ends, and the state in which they stop decides how, whatever the order of
  steps. The shutdown jams for ever, with no worker told to quit, if and only if there are two or more
  dispatchers and the messages and nils that remain when all of them have received do not fit into the
  channel. The system stays at rest if and only if no stop is under way and the requests with offset 0
  leave a dispatcher. In every other case all have quit. For any two or more dispatchers and any channel,
  one nil and a channelful of late requests jam it.
* The lock cache passes a hash at most once more than it was inserted. An entry stays for ever if and only
  if nothing in the expiry queue would remove it, as after a search that passes without an insert. An
  insert lasts exactly until the first item of its hash, older or its own, is acted on, so inserting a hash
  again does not prolong it.
* A request touches one row, in the table named by the prefix of its hash; that table belongs to the worker
  the hash is sent to, and to no other.
* In every known mode the database and table are quotient and remainder of the prefix, so each mode is a
  re-addressing of one flat store. An unknown mode reports 4096 tables but creates none, and routes every
  hash to `s000`.
* Pool handles never exceed their limit and are never shared, but the open counter is always the live
  handles plus the initial connections asked for, so that many handles are lost from the limit. What is
  left of the limit is attained, a caller who does not wait is refused exactly at it, and a waiting call
  never opens a handle.

## Model

| member | source | states |
|---|---|---|
| Strconv.ParseFormatInt | HASHENC.go:35-42 | formatted text reads back as the number exactly when it is an int64, in both bases |
| Strconv.ParseForms | HASHENC.go:74-89 | number texts may carry a sign and use either letter case, and need a digit |
| Strconv.PadIntWidth | nntp-history.go:399-405 | a zero-padded field keeps its width exactly for the numbers that fit it, the sign counting as a digit |
| Strconv.ParsePadded | SQLiteSharding.go:130-135 | padded text reads back as the number |
| OffsetText.ConcatInt64 | HASHENC.go:30-54 | a non-empty list becomes its numbers each followed by a comma, in the chosen base; an empty list is an error |
| OffsetText.ParseByteToSlice | HASHENC.go:56-92 | reads the numbers up to the first bad part behind what the caller's slice held, and says whether all were read; nil and text without a final comma are refused |
| OffsetText.ParseConcatInt64 | HASHENC.go:30-92 | decoding any concatenation of encodings of non-empty int64 lists gives the concatenated lists, negatives included, in base 16 and 10 |
| OffsetText.ParseStops | HASHENC.go:66-90 | any text yields its numbers in order up to the first part that is neither empty nor an int64 |
| OffsetText.ReadWhole | HASHENC.go:56-92 | text is read whole exactly when it ends in a comma and each part is empty or an int64 in the chosen base |
| OffsetText.EncodingOf255 | HASHENC.go:35-42 | 255 is ff in base 16 and 255 in base 10 |
| OffsetText.SQLStore.InsertOffset | MYSQL.go:149-166 | the upsert starts a row or appends the decimal offset and a comma to it |
| OffsetText.SQLStore.GetOffsets | MYSQL.go:168-199 | the positive numbers among the comma-separated parts of the key's row, in order; none for a missing row |
| OffsetText.PositivesMeaning | MYSQL.go:186-196 | from any row text exactly the parts that are positive int64 texts count |
| OffsetText.InsertedOffsets | SQLite.go:154-219 | an insert adds its offset, if positive, behind the key's others and changes no other key |
| OffsetText.StoreRefinesMultimap | MYSQL.go:149-199 | after any inserts under any keys a key reads as exactly its own positive offsets in order of insertion |
| HistoryFile.LineShape | nntp-history.go:405 | a line opens with its only brace, and its hash is followed by its first tab |
| HistoryFile.LineIs102 | nntp-history.go:57-58 | a sha256 line is 102 bytes exactly when its token is one character and its fields fit ten digits |
| HistoryFile.HashReaderEdges | nntp-history.go:478-524 | an offset that is not positive is an error, one at or past the end reads EOF, and all other answers are a 64-character hash, EOF or nothing |
| HistoryFile.LineReaderEdges | nntp-history.go:549-577 | there is no line before or past the file, and offset 0 reads the header's line |
| HistoryFile.ReadNthHash | nntp-history.go:478-524 | seeking to the start of a line returns that line's hash, for lines of any lengths |
| HistoryFile.ReadExact | nntp-history.go:501-523 | past the header, a seek returns a 64-character hash exactly when it hits the start of a line with that hash, and fails exactly when it is misaligned |
| HistoryFile.ReadNthLine | nntp-history.go:549-577 | seeking to the start of a line with the line reader returns that line without its newline |
| HistoryFile.LineReadExact | nntp-history.go:549-577 | past the header the line reader answers a line exactly at the start of one |
| HistoryFile.LineReadsBack | nntp-history.go:397-405 | the text read at the start of a line holds every field the line was written with, and ten dashes that are no number when it never expires |
| HistoryFile.NthLineAt102 | nntp-history.go:478-577 | with 102-byte lines both readers find line n at 4096 + 102 n |
| HistoryFile.HistoryDat.constructor | nntp-history.go:285-290 | an opened file continues at its size with an empty buffer |
| HistoryFile.HistoryDat.Flush | nntp-history.go:438 | the buffer moves to the end of the file and the offset stays |
| HistoryFile.HistoryDat.WriteString | nntp-history.go:413 | nothing is lost or reordered; text that fits is only buffered, and text too long for an empty buffer goes to the file whole |
| HistoryFile.HistoryDat.CheckBufioWriteBuffer | nntp-history.go:434-446 | flushes exactly when the line would fill or overfill the buffer |
| HistoryFile.HistoryDat.WriteHistoryLine | nntp-history.go:397-432 | one formatted line is accepted as a whole and the offset advances by its length |
| HistoryFile.HistoryDat.WriteHistoryHeader | nntp-history.go:448-472 | accepts only padded headers; with a flush the file then ends in the header and a newline |
| HistoryFile.FlushKeepsLines | nntp-history.go:434-442 | a flush leaves whole lines in the file |
| HistoryFile.WriteKeepsLines | nntp-history.go:397-446 | accepting a line of any length splits none, puts it last, and keeps the offset at the end of file and buffer |
| HistoryFile.FileIsWholeLines | nntp-history.go:397-446 | after any lines the file is the header and the first k of them, the buffer is the rest, and the offset is the length of both |
| HistoryFile.PendingBound | nntp-history.go:434-446 | with a buffer of buflines equal lines at most buflines - 1 of them, and never fewer than one, wait in it |
| Header.FseekHistoryHeader | nntp-history.go:526-547 | the text before the first newline, or an error when there is none |
| Header.PadShape | HASHENC.go:136-145 | padding puts NULs behind the text up to the length and leaves longer text alone |
| Header.PadRoundTrip | HASHENC.go:136-145 | removing the padding restores a text exactly when the text holds no NUL |
| Header.CreateAndReadHeader | nntp-history.go:158-181 | a new file holds 4096 bytes at once and its settings text is read back from them |
| IndexedHistory.HashDBWorker.Handle | nntp-history.go:714-796 | a search answers by the verdict on the offsets under its key, an insert adds one offset, and short hashes, other offsets and database failures are answered as errors or retries without a change |
| IndexedHistory.HashDBWorker.IndexQuery | nntp-history.go:579-603 | positive offsets insert and all others search; a short hash is an error |
| IndexedHistory.HashDBWorker.WriteObject | nntp-history.go:307-385 | a line is indexed at the offset it is then appended at; when the index asks for a retry only the buffer is flushed; a missing hash or token stops the writer, and a hash of 1 to 63 characters or an offset of 0 leaves it waiting for ever |
| IndexedHistory.UndisturbedSearch | nntp-history.go:729-781 | a search of the machine read with nothing in between is answered by the worker's verdict |
| IndexedHistory.MissKeepsSearch | nntp-history.go:741-753 | a read that does not match was not the line a search has to find |
| IndexedHistory.InsertedHas | nntp-history.go:782-791 | an insert adds one offset for every hash with its key |
| IndexedHistory.IndexKeepsInv | nntp-history.go:329-345 | indexing a line before it is written keeps every line reachable |
| IndexedHistory.FailedIndexKeepsInv | nntp-history.go:366-373 | a failed insert, stored or not, followed by the flush keeps every line reachable |
| IndexedHistory.AppendKeepsInv | nntp-history.go:381-385 | the appended line is where its index entry says |
| IndexedHistory.RestartKeepsInv | nntp-history.go:285-291 | losing the buffer and reopening at the file's size keeps every line in the file reachable |
| IndexedHistory.Reachable | nntp-history.go:302-387 | in every reachable state file and buffer are whole lines, every accepted line is indexed, and every answer given is right |
| SearchExactness.SearchIsExact | nntp-history.go:729-781 | in every run a search answers duplicate exactly when the file carries the hash, and retry exactly when its only offset is misaligned |
| SearchExactness.RepliesAreRight | nntp-history.go:738-781 | a search interleaved with anything answers duplicate only if the line is in the file at the answer, and always if it was at the start |
| SearchExactness.GridRead | nntp-history.go:515-517 | an offset that is a multiple of the line length past the header starts a line or is not before the end of the file, and reading it is no error |
| SearchExactness.IndexedOffsets | nntp-history.go:285-387 | with lines of one length every indexed offset starts a line or is not before the end of the file, through any crashes |
| SearchExactness.UniformSearchIsExact | nntp-history.go:762-781 | with lines of one length a search answers duplicate or pass and never retry, through any crashes |
| SearchExactness.UniformRepliesAreExact | nntp-history.go:729-781 | the same for interleaved searches |
| SearchExactness.PassedThoughAccepted | nntp-history.go:501-506 | an accepted hash is passed exactly while all its lines are in the buffer, for lines of any lengths |
| SearchExactness.FewPending | nntp-history.go:434-446 | in every run at most buflines - 1 lines wait in the buffer |
| SearchExactness.FewBytesPending | nntp-history.go:434-446 | in every run fewer bytes than the buffer size wait in the buffer, or a single line of any length |
| SearchExactness.ReportedOnceBufferFilled | nntp-history.go:434-446 | a line that is not the last is reported as a duplicate as soon as it and the lines after it fill the buffer, whatever their lengths |
| SearchExactness.SoonReported | nntp-history.go:57-58 | a line followed by nine more accepted ones is always reported with the default buffer |
| ConcreteRuns.RetryWithoutLine | nntp-history.go:515-517 | a run with lines of two lengths and one crash after which a search for a hash not in the file asks for a retry |
| ConcreteRuns.DuplicateAccepted | nntp-history.go:782-792 | a run in which both searches pass and the same hash is accepted twice |
| Durability.StepKeepsAccepted | nntp-history.go:366-385 | appending accepts one line, a crash loses the buffered ones, every other step keeps the accepted lines; a failed insert and a clean stop leave all of them in the file |
| Durability.StepIndexes | nntp-history.go:782-791 | the index only grows, by the offset of the next line under its key, whether or not the line is then written |
| Durability.StepAnswers | nntp-history.go:729-781 | each search gets at most one reply and only a restart ends one without; a search the database fails is told to retry |
| Durability.AcceptedUntilCrash | nntp-history.go:302-393 | the file keeps its lines over any steps, and without a crash every accepted line stays accepted |
| Durability.ReportedForEver | nntp-history.go:729-781 | a hash once reported as a duplicate is reported for ever, through crashes |
| Durability.FlushedIsReported | nntp-history.go:366-373 | after a failed insert or a clean stop every hash accepted before is reported as a duplicate |
| Durability.WriteAsSteps | nntp-history.go:307-385 | from the same file and index the writer answers an object and leaves the file and index of the machine's steps |
| Durability.WrittenReadsBack | nntp-history.go:318-405 | after any run the line of an object handed to the writer reads back with all its fields, the time of the call standing in for a missing arrival |
| HexPrefixes.Append | nntp-history.go:930 | append writes in place while the backing array has room and copies otherwise; the shorter slice keeps its elements |
| HexPrefixes.GenerateCombinations | nntp-history.go:920-934 | the prior list followed by every extension of the prefix in order, although siblings overwrite one another's slot |
| HexPrefixes.CombinationsInOrder | nntp-history.go:201-213 | there are 16 to the k words and the i-th is i in k hex digits |
| HexPrefixes.WordIsPadded | SQLiteSharding.go:134 | that word is what %0kx prints |
| HexPrefixes.RootDBsInOrder | nntp-history.go:201-217 | ROOTDBS lists every prefix once, the i-th being the hex form of i |
| HexPrefixes.InitCharsMap | MYSQL.go:55-60 | charsMap takes every listed prefix to its place |
| HexPrefixes.CharsMapIsCharIndex | MYSQL.go:55-60 | charsMap looks a prefix up by its value, and answers 0 for anything that is not three lowercase hex digits |
| Dispatch.StepConserves | nntp-history.go:645-797 | no step of a dispatcher, worker or the shutdown creates or loses a request |
| Dispatch.RequestsAreConserved | nntp-history.go:645-797 | what was sent is on its way, answered by the worker its hash is routed to, ignored for want of a return channel, or dropped with a dispatcher |
| Dispatch.RouteOwnsPrefix | nntp-history.go:667-675 | a lowercase hex hash goes to the worker named by its prefix |
| Dispatch.RouteNames | nntp-history.go:667-675 | hex digits in either case lead to the worker of their lower case, and anything else to the first worker |
| Dispatch.RequestKinds | nntp-history.go:652-665 | a short hash stops the dispatcher like a nil, offset 0 kills it, and every other request is for a worker |
| WorkerTables.OwnRow | nntp-history.go:727 | a request is served from the table of its first three characters and the row of the next seven, and a hash goes to the worker of that table |
| WorkerTables.InsertTouchesOwnRow | MYSQL.go:149-166 | an insert appends the decimal offset and a comma to that row and changes no other |
| WorkerTables.SearchReadsOwnRow | MYSQL.go:168-199 | a search depends on that row only |
| WorkerTables.WorkersApart | nntp-history.go:667-675 | the table of a hash is the one created under its worker's number, and two hashes share a table exactly when they share a worker |
| Dispatch.NextKeepsInv | nntp-history.go:640-713 | every step keeps workers, dispatchers, channels and the order of requests before the first stop consistent |
| Dispatch.CutMeaning | nntp-history.go:662-665 | the cut of a list of messages stands right behind its n-th request with offset 0, or at its end when there are fewer |
| Shutdown.StepDecreases | nntp-history.go:639-690 | every step but a client's send decreases the measure |
| Shutdown.StuckExactly | nntp-history.go:652-661 | no step is left exactly when all have quit, there is nothing to do, or every dispatcher left holds a nil it cannot put back into a full channel |
| Shutdown.RunsEnd | nntp-history.go:639-690 | every run without clients can be continued until no step is left |
| Shutdown.StepKeepsCrowd | nntp-history.go:645-690 | with two or more dispatchers no step without clients changes how many messages and nils will remain |
| Shutdown.StepKeepsStop | nntp-history.go:645-690 | without clients a stop neither appears nor gets lost, and without one only requests with offset 0 cost dispatchers |
| Shutdown.ShutdownOutcome | nntp-history.go:639-691 | once clients stop every run ends, jammed exactly if more remains than the channel holds, at rest exactly if no stop is under way and a dispatcher survives, and otherwise with all having quit |
| Shutdown.JamReachable | nntp-history.go:652-661 | with two or more dispatchers and a channel of any size, one nil and a channelful of late requests jam the shutdown |
| Shutdown.AnsweredWhenWaiting | nntp-history.go:667-797 | whenever the running system is at rest, each proper request with a return channel has been answered exactly as often as it was sent, by the worker of its prefix |
| Shutdown.RunningSystemAnswers | nntp-history.go:645-797 | without a stop and with fewer offset-0 requests than dispatchers, every run comes to rest, with exactly one reply to each such request |
| Shutdown.ShutdownDrains | nntp-history.go:652-690 | when no step is left, a request was answered as often as it was sent before the first stop exactly when it was not sent behind the par-th request with offset 0; if that one was reached, only what was sent before it is answered |
| Shutdown.AllDrained | nntp-history.go:652-690 | when no step is left, all proper requests with a return channel sent before the first stop are answered exactly when none of them was sent behind the par-th request with offset 0 |
| Shutdown.ZeroOffsetsStrand | nntp-history.go:662-665 | for any number of dispatchers and any channel, as many requests with offset 0 leave the request behind them unanswered for ever |
| L1Cache.L1Shard.LockL1Cache | L1CACHE.go:111-148 | an absent hash is set and passed, a present one answers its value, and an empty one is invalid; any other must hold the characters that name its shard |
| L1Cache.L1Shard.Set | L1CACHE.go:227-264 | stores the value, queues an expiring item behind the others, and counts the call |
| L1Cache.L1Shard.Push | L1CACHE.go:297-300 | the item goes to the end of the queue with its deadline |
| L1Cache.L1Shard.Pop | L1CACHE.go:302-315 | the oldest item and the queue's length before, or nothing |
| L1Cache.L1Shard.IndexQuery | nntp-history.go:605-622 | inserts set and expire; searches lock and answer pass or duplicate |
| L1Cache.L1Shard.ExpireTake | L1CACHE.go:360-373 | the oldest item is taken and slept on until due, or not at all for less than a millisecond |
| L1Cache.L1Shard.ExpireDelete | L1CACHE.go:375-379 | the item's hash leaves the cache and the deletion is counted |
| L1Cache.AfterAdd | nntp-history.go:607-610 | every positive offset inserts: the hash is cached as added and one item of it queued |
| L1Cache.AfterSearch | nntp-history.go:611-620 | every other offset searches: pass or duplicate, nothing queued, an absent hash left behind as a duplicate |
| L1Cache.ActedOnInTime | L1CACHE.go:365-379 | the loop never sleeps past a deadline: from then on an item in flight can be acted on, and its hash leaves the cache |
| L1Cache.Reachable | L1CACHE.go:111-386 | counts, deadlines and entries stay consistent in every run |
| L1Cache.PassesAreBounded | nntp-history.go:606-622 | a hash is passed at most once more than its items expired, hence at most once more than it was inserted; inserts are items expired or pending |
| L1Cache.CountersAgree | L1CACHE.go:243-256 | Count_FlagEx is the items queued, in flight and deleted, and Count_Locked is at most Count_Delete plus the entries held |
| L1Cache.DeadlinesAreKept | L1CACHE.go:297-380 | the queue stays ordered, nothing is deleted a millisecond or more early, and every inserted entry has a pending item |
| L1Cache.StaysLocked | L1CACHE.go:365-379 | a cached hash whose items are due at a deadline or later stays cached and is passed to nobody until a millisecond before it |
| L1Cache.InsertLocks | L1CACHE.go:243-253 | an insert without older pending items locks the hash for its whole lifetime less a millisecond |
| L1Cache.PassForgets | L1CACHE.go:131-137 | a search that passes leaves an entry without an item to remove it |
| L1Cache.PassedButNeverAdded | nntp-history.go:611-620 | such an entry stays for ever unless the hash is inserted |
| L1Cache.StaysIffForgotten | L1CACHE.go:360-379 | without further searches and inserts of the hash, once its last item was acted on it is cached exactly if it was cached without an item before |
| L1Cache.ForgottenRemain | L1CACHE.go:297-379 | the expiry loop can always empty its queue, and the entries it then leaves are exactly those that had no item |
| L1Cache.ItemsInOrder | L1CACHE.go:297-315 | items are acted on in the order of their inserts and none is lost |
| L1Cache.InsertLifetime | L1CACHE.go:243-379 | an inserted hash is cached and passed to nobody until an item of it is acted on, whatever happens, and without further searches and inserts exactly until then |
| L1Cache.ReAddDoesNotProlong | L1CACHE.go:249-379 | over any run without further searches and inserts, the first older item acted on removes the entry of a second insert for good, with items of it still pending |
| Sharding.GetTableNamesForDB | SQLiteSharding.go:315-355 | lists the numbered names of the mode in order, and none for the full split and unknown modes |
| Sharding.AddressIsQuotient | SQLiteSharding.go:144-240 | in every known mode database and table are quotient and remainder of the prefix by the tables per database, in range and created, and the mode has 4096 tables in all |
| Sharding.TablesDistinct | SQLiteSharding.go:258-355 | no table is created twice in a database |
| Sharding.TableExistsIffKnownMode | SQLiteSharding.go:192-240 | the routed table exists exactly in the six known modes; any other reports 4096 tables and creates none |
| Sharding.AddressInjective | SQLiteSharding.go:144-240 | two keys share database, table and row exactly when they are equal |
| Sharding.AddressSurjective | SQLiteSharding.go:258-355 | every created table of every database is the address of a prefix |
| Sharding.DBPathsDistinct | SQLiteSharding.go:89-101 | different databases are different files |
| Sharding.FilesAreNumbered | SQLiteSharding.go:89-101 | the number in a file's name reads back as the number of its database |
| Sharding.FullSplitNames | SQLiteSharding.go:93-96 | in the full split the file of a hash is named by its three digits and its table is shash |
| Sharding.NamesOutOfRange | SQLiteSharding.go:130-135 | an index that is no database has the first one's name |
| Sharding.GoDivMod | SQLiteSharding.go:144-190 | division truncates toward zero and the remainder has the sign of the dividend |
| Sharding.UnparsedHashes | SQLiteSharding.go:144-240 | hashes that are short, of an unknown mode or do not parse go to the first database and table |
| Sharding.IndexInRange | SQLiteSharding.go:144-190 | the database index is below the number of databases, and negative only for a hash with a leading minus sign, in the full split exactly if its prefix reads as a negative number |
| Sharding.ShardsRefineFlatStore | SQLiteSharding.go:357-368 | after any inserts every known mode holds for every key the text the single database holds |
| OffsetCache.L3Shard.ValueExistsInSliceReverseOrder | L3CACHE.go:305-312 | finds a value exactly when it occurs |
| OffsetCache.L3Shard.SetOffsets | L3CACHE.go:175-247 | a missing or empty entry takes the new list, another the merge; one queue item per expiring call; expiring calls with offsets and other calls are counted; nil and empty keys change nothing |
| OffsetCache.MergeKeepsDistinct | L3CACHE.go:222-239 | the cached list stays in front and free of repeats |
| OffsetCache.MergeContents | L3CACHE.go:222-239 | the merge holds the cached offsets and the positive new ones behind the last one already known |
| OffsetCache.MergeOrder | L3CACHE.go:222-239 | the merge is the cached list followed by those offsets, last first |
| OffsetCache.LosslessIff | L3CACHE.go:230-238 | the early return loses nothing exactly when no new positive offset stands before a known one |
| OffsetCache.KnownThenNew | L3CACHE.go:222-239 | known offsets followed by new distinct ones give the union, the new ones in reverse |
| ConnPool.SQLite3DB.GetDB | SQLite.go:221-271 | which handle is lent, replaced, opened or refused, and how the counter changes |
| ConnPool.SQLite3DB.ReturnDB | SQLite.go:273-275 | the handle becomes idle behind the others with a new time, or the call blocks on a full channel |
| ConnPool.SQLite3DB.CloseDB | SQLite.go:277-282 | the handle is gone and the counter lower by one |
| ConnPool.SQLite3DB.CreateTables | SQLite.go:114-151 | a waiting call takes a handle and returns it also when a statement fails; it fails without one |
| ConnPool.NewSQLite3Pool | SQLite.go:39-77 | one handle is opened however many were asked for and counted once more for each; creating the tables borrows it, and either can fail the call |
| ConnPool.CreatingTablesIsARun | SQLite.go:114-151 | creating the tables is a run of the new pool that succeeds exactly when its handle is fresh, answers or can be replaced, and leaves one idle handle and the counter as it was |
| ConnPool.PoolSafety | SQLite.go:61-69 | in every run, failures and handles opened late included, handles are idle or lent once, the counter is the live handles plus the initial connections, and the handles stay within what that leaves of the limit |
| ConnPool.ReturnNeverBlocks | SQLite.go:273-275 | a lent handle can always be returned |
| ConnPool.LentToOne | SQLite.go:221-271 | a handle handed out, also one opened after the channel was seen empty, is held by no other caller |
| ConnPool.ClosingMakesRoom | SQLite.go:277-282 | closing a lent handle makes room, and the next call that does not wait is lent one |
| ConnPool.RefusedAtCapacity | SQLite.go:254-269 | a caller who does not wait is refused exactly when no handle is idle and the pool holds all it can |
| ConnPool.CapacityAttained | SQLite.go:254-269 | callers who do not wait are lent as many handles at once as the capacity says |
| ConnPool.AskedCapacity | SQLite.go:39-45 | the capacity for the numbers asked, defaults included |
| ConnPool.DeadInTwoSteps | SQLite.go:230-250 | dropping a dead handle and replacing it is what one waiting call does |
| ConnPool.WaitingNeverOpens | SQLite.go:222-250 | with initial connections a waiting call adds no handle, and blocks once the last one is gone although the counter is positive |
| Wire.ExtraSpaces | CLIENT.go:126-128 | a space in hash or token makes more than five parts |
| Wire.PartsWritten | CLIENT.go:126-128 | the text is hash, token, arrival, expires and date in this order |
| Wire.ParsedExactly | SOCKET.go:208-234 | an object is answered exactly for five parts of which the last three are int64 texts, and it holds them in order |
| Wire.WireRoundTrip | SOCKET.go:208-234 | decoding restores the object, over all int64 fields and with empty hash or token, exactly when neither holds a space |

## Left out

- SQL drivers, tables' creation statements, files, sockets, gob, base64, CRC, logging, statistics and profiling are library calls; the SQL table is a map, `bufio` a bounded buffer, `utils.Str2int64` decimal parsing with 0 for bad text.
- HistoryFile.HistoryDat.WriteString: write errors of the operating system and torn writes are not modelled; a flush happens or does not. The counters `wbt`, `wroteLines` and `bufferedptr` are only logged and are not modelled.
- SearchExactness.SearchIsExact: hashes are 64 lowercase hex characters and tokens hold no opening brace, as the documented tokens F, M and X do; a longer hash passes the length checks but is never recognised by the file reader.
- IndexedHistory.Reachable: a file longer than an int64 can count is not modelled, and each read and each flush is one step.
- Shutdown.ShutdownOutcome: `IndexChan` is a buffered channel supplied by the host; clients that send on the closed channel panic and are not modelled. Which of the dispatchers takes a message is not modelled, as they are alike.
- Dispatch.RequestsAreConserved: what an answer says is the subject of `IndexedHistory`; an answer is taken to be received.
- L1Cache.L1Shard.Set: the push and the store are one step, and one shard is modelled, with the cache switched on.
- L1Cache.L1Shard.LockL1Cache: a hash of one or two characters that is shorter than the shard's name panics in the source and is the caller's error here.
- IndexedHistory.HashDBWorker.WriteObject: the writer with a hash database; without one it takes its answer from the lock cache, which for an insert always says added, and appends every line.
- ConnPool.PoolSafety: callers return and close only handles lent to them. `ClosePool` and `SetMaxOpen` are left out; the MySQL pool is the same code with other defaults.
- OffsetCache.L3Shard.SetOffsets: lists are values. In the source the cached slice is the caller's, and a later append can write into the shared array behind the caller's length, which is not modelled; no code of the repository calls it. The expiry queue is that of L1.
- Sharding.ShardsRefineFlatStore: the sharded database only hands out a connection and a table name; the row key is taken to be the rest of the hash, as in the single database.
- The socket server's command loop is left out. It expects eight parts in an ADD line where the client prints seven, so no ADD line of this client is accepted.
- L2CACHE.go, the extend queues and the L3 boot code, which add nothing harder.
