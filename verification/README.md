# Verified models of the server's core components

Dafny 4.11 models of five components, with proofs of what they promise. `dafny verify dfyconfig.toml`
checks everything. Nothing was executed: the models follow the source as read.

**JSON** (`Json*.dfy`). `JsonStrings` is the in-place escaper and the unescaper with its surrogate
arithmetic, `JsonScanner` the automaton with its marker against the token grammar, `JsonNumbers` the
conversion of number tokens, `JsonParser` the recursive-descent parser, `JsonPrinter` the printer and the
theorem that parsing undoes printing, `JsonGrammar` the exact set of texts that parse, `JsonEscapes` and
`JsonLayout` what string texts denote and how printed text is laid out, told apart from the code that reads
and writes them, and `JsonPointers`, `JsonFlatten` and `JsonUnflatten` the pointers of RFC 6901 and the exact
condition under which unflatten undoes flatten. Objects are key-sorted sequences of
members, as `std::map` keeps them; text is bytes with the terminating zero the string constructor relies on.

**Coroutine synchronisation** (`BlockObjects.dfy`, `RWMutex.dfy`). The lock-protected regions of the
semaphore are methods, and a transition system over any number of tasks, objects and timers has those
regions, the unprotected writes between them and the timer callbacks as its steps. The fields a waiting task
writes before it yields are one step, and the checks and the erasure in `CancelWait` another: they run
under the lock, and a task that is queued there does not change its fields. The reader/writer lock is a
second transition system, whose steps are its single atomic operations. `Task`, `TSQueue` and the scheduler
are not part of this model: a FIFO queue, sequentially consistent atomics, one `AddWaitTask` after each
yield and a re-run when it returns false are assumed, and sequence numbers are unbounded.

**Pipelined Redis client** (`RedisWire`, `RedisPipeline`, `RedisHandles`, `RedisWaiting`,
`RedisTransactions`, `RedisConnection`, `RedisClient`, `RedisSession`, `RedisPitfalls`, `SocketBuffer`,
`RedisStream`, `RespCommand`). `RedisConnection.Connection` is the connection with its reply list, its reply
objects and the stream buffer of its socket. `Views` is what each handle still has to tell its client; every
method changes it as a client without a pipeline would see it, whatever is read behind the scenes.
`RedisClient` is such a client, with the calls it may make by what it knows of its own calls; `RedisSession`
shows that in every session, however `recv` splits the data, it is told the same, and that its limits are
the exact ones; `RedisPitfalls` breaks them. Where the code loses a reply (the original of an unread copy, an
enumerator put aside and then assigned), the client is told what the code tells, and
`RedisHandles.CopyTellsTwice` and `RedisSession.AssignsAllIff` say exactly when that is the reply.
`SocketBuffer` is the buffer, `RedisStream` the readers over it, and `RespCommand` shows that commands can
be read back.

**Redis Cluster** (`CrcRegister`, `SlotHash`, `SlotRouting`, `ConnectionPool`). The table-driven checksum
against division bit by bit, hash tags, predecessor search against a scan, and the blocking pool of
connections, both as one thread sees it and as a transition system in which every wait splits a step.

**Insertion-ordered map** (`FifoMaps`). The ordered map whose comparator inserts into its own side table,
against an association list, with the condition under which the two agree and what happens beyond it.

Where the code and its comments or a standard disagree, the models follow the code: raw bytes from 0x10 to
0x1F are allowed in strings (`json_map.hpp:7535-7569`); the wrap test of `get_number` misses some overflows
(`JsonNumbers.WrapTestMisses`, with the exact condition in `JsonNumbers.GetNumberRightIff`); the identity
called always true at `json_map.hpp:9480-9483` is not (`JsonUnflatten.ZeroMemberIsLost`); copying a reply
object that has not been read leaves the original with a default (`RedisHandles.CopyTellsTwice`); assigning an
enumerator drops what its source had put aside (`RedisConnection.Connection.AssignEnumerator`); a second
Transaction on a connection throws too late (`RedisTransactions.NestedBegin`), and one that is aborted leaves
its commands waiting (`RedisTransactions.AbortGood`); a connection leased for a redirect is lost when the
command then throws (`ConnectionPool.LostIsWaitedFor`); and keys looked up in vain lose their place in the
insertion-ordered map (`FifoMaps.MapIsListIff`).

## Model

| member | source | states |
|---|---|---|
| JsonStrings.ExtraSpace | src/common/json_parser/json_map.hpp:5959-5993 | the exact number of bytes escaping adds: the escaped text has the length of the input plus this |
| JsonStrings.EscapeString | src/common/json_parser/json_map.hpp:6008-6112 | the buffer filled by index is the byte-by-byte escaping, with every write in range and no byte of the buffer left over |
| JsonStrings.WriteEscaped | src/common/json_parser/json_map.hpp:6020-6108 | one input byte writes its one, two or six bytes at the position given and leaves what is before |
| JsonStrings.EncodingDecodes | src/common/json_parser/json_map.hpp:7407-7469 | the bytes made for a code point, or for a surrogate pair, are its shortest form of 1 to 4 bytes, and its UTF-8 encoding (RFC 3629, section 3) if and only if it is not a low surrogate on its own |
| JsonStrings.LoneLowSurrogate | src/common/json_parser/json_map.hpp:7407-7469 | \uDC00 on its own becomes ED B0 80, which is not UTF-8 |
| JsonStrings.GetString | src/common/json_parser/json_map.hpp:8341-8442 | on every string token: reads stay inside it and end at the closing quote; the result is the specified unescaping, whose meaning `UnescapeIsReading` gives |
| JsonStrings.UnescapeFails | src/common/json_parser/json_map.hpp:8341-8442 | unescaping fails exactly when some high-surrogate escape is not followed at once by a low-surrogate escape, and never with the range error; `CodeEscapeValue` says what an escape denotes |
| JsonStrings.UnescapeEscape | src/common/json_parser/json_map.hpp:6008-6112 | unescaping undoes escaping, and the escaped bytes are a string body, for every byte string |
| JsonEscapes.CodeEscapeValue | src/common/json_parser/json_map.hpp:8396-8398 | the four bytes of a \u escape are read as n exactly when they are the base-16 digits of n, by division, in either case |
| JsonEscapes.UnescapeIsReading | src/common/json_parser/json_map.hpp:8341-8442 | reading gives s exactly when the text falls into literal bytes, the eight letter escapes of RFC 7159, \u escapes of numbers that are no high surrogate, and pairs of them for supplementary code points, and these stand for s, by literal bytes, the digits of the number and the bit layout of RFC 3629; it fails exactly when the text falls into no such pieces |
| JsonEscapes.ReadingIsUnescape | src/common/json_parser/json_map.hpp:8341-8442 | every sequence of such pieces may stand in a string token, and is read as what they stand for |
| JsonEscapes.EscapeIsReading | src/common/json_parser/json_map.hpp:6008-6112 | what escape_string writes falls into such pieces, none of them a bare control byte |
| JsonEscapes.ControlEscape | src/common/json_parser/json_map.hpp:6082-6101 | a control byte that has no letter is written as \u00 and its two digits in lower case |
| JsonEscapes.EscapeIsShortest | src/common/json_parser/json_map.hpp:6008-6112 | no text that RFC 7159 allows for a byte string is shorter than the one escape_string writes |
| JsonScanner.LongestMatch | src/common/json_parser/json_map.hpp:7522-8284 | the token at a position is the longest match over all token classes (numbers by RFC 7159, section 6); an error token is one byte wide and means that nothing matches |
| JsonScanner.SkipIsBlankRun | src/common/json_parser/json_map.hpp:7522-8284 | a scan starts its token at the end of a run of the four white-space bytes of RFC 7159 and byte order marks, where no more of them follows |
| JsonScanner.NumberIsLongest | src/common/json_parser/json_map.hpp:7727-8128 | among all splits of a number into integer, fraction and exponent, the greedy one with its fall-backs to the marker ends last |
| JsonScanner.Lexer.Scan | src/common/json_parser/json_map.hpp:7522-8284 | the automaton with its cursor and marker returns the token specified for the position, after white space, and terminates |
| JsonScanner.Lexer.ScanNumber | src/common/json_parser/json_map.hpp:7727-8128 | backtracking: an unfinished fraction or exponent gives the cursor back to the marker |
| JsonScanner.Lexer.ScanString | src/common/json_parser/json_map.hpp:7856-7970 | a string token up to its closing quote, or one byte of error if the text breaks off or an escape is malformed |
| JsonNumbers.GetNumber | src/common/json_parser/json_map.hpp:8536-8648 | the loop over the digits computes the specified value and kind for every number token |
| JsonNumbers.GetNumberRightIff | src/common/json_parser/json_map.hpp:8560-8648 | for a digits-only token the value is right if and only if it fits, or some digit makes the running value wrap to a smaller one; an unsigned result is always the value modulo 2^64 |
| JsonNumbers.WrapTestMisses | src/common/json_parser/json_map.hpp:8607-8622 | 30000000000000000000 is read as the unsigned 11553255926290448384 |
| JsonNumbers.PrintedNumber | src/common/json_parser/json_map.hpp:8536-8648 | a printed 64-bit integer is one number token, and reading it gives the integer back, unsigned if it is not negative |
| JsonParser.Parser.constructor | src/common/json_parser/json_map.hpp:8674-8682 | the first token is read, from the text with its terminator |
| JsonParser.Parser.Parse | src/common/json_parser/json_map.hpp:8692-8702 | the recursive-descent parser computes the specified parse; it never scans past the first end of input |
| JsonParser.Parser.ParseInternal | src/common/json_parser/json_map.hpp:8705-8894 | one value from the current token on, leaving the token after it, or the error of the first unexpected token |
| JsonParser.Parser.ParseObject | src/common/json_parser/json_map.hpp:8711-8795 | members in order, each stored under its key, up to the closing brace |
| JsonParser.Parser.ParseArray | src/common/json_parser/json_map.hpp:8797-8845 | elements in order up to the closing bracket |
| JsonGrammar.ParsesIff | src/common/json_parser/json_map.hpp:8692-8894 | a text parses if and only if its tokens, up to the first end of input, are those of a tree of the value grammar (RFC 7159, sections 2 to 5) and no string among them has a lone high surrogate |
| JsonGrammar.ParsesToMeaning | src/common/json_parser/json_map.hpp:8692-8894 | and then to what the tree means: its value, or the error of its first bad string |
| JsonGrammar.MeaningIff | src/common/json_parser/json_map.hpp:8705-8894 | a tree has a value exactly if all its strings can be unescaped |
| JsonGrammar.LastFieldCounts | src/common/json_parser/json_map.hpp:8740-8781 | an object has its members in the order of their keys, and each the value of the last field with its key |
| JsonPrinter.DumpTo | src/common/json_parser/json_map.hpp:6131-6246 | what is written to the stream is the specified text, appended to what was there |
| JsonPrinter.DumpText | src/common/json_parser/json_map.hpp:2166-2180 | dump(indent) prints the specified text for its indent; `DumpLayout` says how it is laid out |
| JsonLayout.DumpLayout | src/common/json_parser/json_map.hpp:2166-2180 | for every value: a negative indent prints no blank outside strings; any other indent prints that same text with just these blanks put in: a new line, with depth times indent spaces, before each element and key and before each closing bracket at its opener's depth, none in empty containers, and one space behind each colon; told by a scan of the text |
| JsonLayout.ValueIsLaid | src/common/json_parser/json_map.hpp:6131-6246 | the same of a value at any depth, with the columns counted by an unsigned int |
| JsonPrinter.DumpParses | src/common/json_parser/json_map.hpp:6131-6246 | wherever the text of a value stands, followed by a byte that does not continue it, parsing reads just that text and gives the value |
| JsonPrinter.ParsedEqual | src/common/json_parser/json_map.hpp:5411-5500 | the value that comes back, with its non-negative integers unsigned, is equal to the printed one under operator== |
| JsonPrinter.PrintThenParse | src/common/json_parser/json_map.hpp:8692-8894 | parse(dump(v)) == v for every float-free, non-discarded value, every byte string, every 64-bit integer and every indent |
| JsonPrinter.PrintAndParse | src/common/json_parser/json_map.hpp:8692-8894 | the same of the imperative printer, scanner and parser together |
| JsonPrinter.KnownTexts | src/common/json_parser/json_map.hpp:8846-8884 | the three literals, a negative number and the empty containers are read from their own bytes |
| JsonPointers.ReplaceSubstring | src/common/json_parser/json_map.hpp:9299-9330 | the find-and-replace loop replaces every occurrence from left to right, without looking into what it put in |
| JsonPointers.TwoPassesAreOne | src/common/json_parser/json_map.hpp:9284-9294 | replacing ~1 and then ~0 decodes each escape once, in one pass (RFC 6901, section 4) |
| JsonPointers.ReplacementsEscape | src/common/json_parser/json_map.hpp:9370-9378 | the two replacements in flatten are the escaping of RFC 6901, section 3 |
| JsonPointers.UnescapeEscapedToken | src/common/json_parser/json_map.hpp:9284-9294 | unescaping a reference token undoes escaping it |
| JsonPointers.Split | src/common/json_parser/json_map.hpp:9235-9297 | the loop over the slashes gives the specified tokens, or the error of a missing slash or a bad escape |
| JsonPointers.SplitJoin | src/common/json_parser/json_map.hpp:9235-9297 | splitting a pointer built from tokens gives the tokens back |
| JsonPointers.SplitIff | src/common/json_parser/json_map.hpp:9235-9297 | a string splits into tokens exactly if they join to it; otherwise, and only then, it is a domain error |
| JsonPointers.KnownPointer | src/common/json_parser/json_map.hpp:9235-9297 | the tokens a/b and m~n of RFC 6901 in their bytes |
| JsonFlatten.FlattenTo | src/common/json_parser/json_map.hpp:9335-9390 | the recursion that stores into the result object computes the specified flattening |
| JsonFlatten.FlattenStores | src/common/json_parser/json_map.hpp:9335-9390 | the flattened object holds exactly the leaves, each under the pointer to it, and what was there under any other key |
| JsonFlatten.EmptyBecomesNull | src/common/json_parser/json_map.hpp:9341-9387 | whatever stands in the value under a list of tokens is found in the flattened object under their pointer: an empty array or object as null, a primitive unchanged |
| JsonUnflatten.StoiDecimal | src/common/json_parser/json_map.hpp:9013-9018 | stoi reads back the decimal text of every index an int holds |
| JsonUnflatten.StoiReads | src/common/json_parser/json_map.hpp:9013-9018 | white space, a sign, digits and anything behind them are read as the number, if an int holds it |
| JsonUnflatten.StoiFails | src/common/json_parser/json_map.hpp:9013-9018 | and any other text is an invalid argument |
| JsonUnflatten.AssignedIsFound | src/common/json_parser/json_map.hpp:8981-9035 | a value assigned under reference tokens is found under them, through objects, arrays and what was created on the way |
| JsonUnflatten.Unflatten | src/common/json_parser/json_map.hpp:9392-9424 | the loop over the members computes the specified value or the first error |
| JsonUnflatten.BuildsObject | src/common/json_parser/json_map.hpp:8981-9035 | inserting entries whose first tokens start no array builds an object whose members are built from their own entries |
| JsonUnflatten.BuildsArray | src/common/json_parser/json_map.hpp:8981-9035 | inserting entries by index, in any order that starts with 0, builds an array with null in the slots not yet written |
| JsonUnflatten.BuildRestores | src/common/json_parser/json_map.hpp:8981-9035 | the leaves of a value, in the order of their pointers, build the value if and only if it is restorable |
| JsonUnflatten.FlattenThenUnflatten | src/common/json_parser/json_map.hpp:9480-9483 | flatten then unflatten is the identity exactly for the values with no empty container, arrays of at most 2^31 elements, and no object whose first pointer belongs to a member named 0 |
| JsonUnflatten.FlattenAndUnflatten | src/common/json_parser/json_map.hpp:9335-9424 | the same of the imperative code |
| JsonUnflatten.ZeroMemberIsLost | src/common/json_parser/json_map.hpp:9480-9483 | {"0": 1} comes back as [1], against the comment |
| BlockObjects.BlockObject.TryBlockWait | src/libgo/libgo/block_object.cpp:86-95 | takes one signal, if there is one, and says whether it did |
| BlockObjects.BlockObject.Wakeup | src/libgo/libgo/block_object.cpp:97-111 | pops the longest waiting task; without one it stores the signal, or refuses at the limit |
| BlockObjects.BlockObject.AddWaitTask | src/libgo/libgo/block_object.cpp:159-167 | a late signal is taken instead of queueing |
| BlockObjects.BlockObject.EraseWaiter | src/libgo/libgo/block_object.cpp:137-141 | removes the task from the queue if it waits there, and nothing else |
| BlockObjects.StepKeepsInv | src/libgo/libgo/block_object.cpp:30-190 | the invariant over tasks, queues, timers, episodes and signals is kept by every step of every task and timer |
| BlockObjects.EpisodesEndOnce | src/libgo/libgo/block_object.cpp:97-151 | in every interleaving a queued wait that is over was made runnable exactly once, by Wakeup or by CancelWait; one that is not over, never |
| BlockObjects.TimerEndsOnlyItsEpisode | src/libgo/libgo/block_object.cpp:123-151 | a timer that fires ends a wait if and only if its task is still queued on its object in the very episode it was set for; otherwise nothing changes |
| BlockObjects.StepKeepsAnswers | src/libgo/libgo/block_object.cpp:55-84 | from the call on, a task is on the object and has the timeout that its last call asked for, until that call is over |
| BlockObjects.TimedWaitHasTimer | src/libgo/libgo/block_object.cpp:66-79 | in every run a queued wait is one that its task called for, on that object, and it has its own timer, armed or firing, if and only if the timeout of that call is not zero |
| BlockObjects.TimedWaitCanEnd | src/libgo/libgo/block_object.cpp:171-187 | that timer can go off, and then its cancellation ends the wait |
| BlockObjects.UntimedWaitIsWoken | src/libgo/libgo/block_object.cpp:30-53 | a wait called without a timeout is touched by no timer, ends only by Wakeup, and its result is true |
| BlockObjects.GrantedIffSignalsLeft | src/libgo/libgo/block_object.cpp:66-95 | in every run a call, a try or a late arrival is granted a signal at once exactly when more were given than were granted; otherwise the call goes on to wait, the try returns false, and the task is queued at the end |
| BlockObjects.WakeupStoresUpToLimit | src/libgo/libgo/block_object.cpp:97-111 | a Wakeup for which nobody waits leaves one signal more, and at the limit changes nothing |
| BlockObjects.NobodyIsStuck | src/libgo/libgo/block_object.cpp:30-190 | a task inside a call that is not queued has a step that brings it nearer to the end of the call |
| BlockObjects.NoTimerOutlivesItsWait | src/libgo/libgo/block_object.cpp:113-118 | an armed timer is that of a wait still queued, or popped by a Wakeup that has yet to cancel it |
| BlockObjects.ResultTellsConsumption | src/libgo/libgo/block_object.cpp:66-83 | the result of a finished call says whether the call consumed a signal |
| BlockObjects.SignalsAreConserved | src/libgo/libgo/block_object.cpp:37-43 | signals given at first and posted are those stored and granted; signals are stored only while nobody waits |
| BlockObjects.NoBarging | src/libgo/libgo/block_object.cpp:97-121 | while tasks wait, no other task is granted a signal, and the next post is granted to the first in the queue |
| BlockObjects.ServedInOrder | src/libgo/libgo/block_object.cpp:97-121 | a task is not popped while another that queued before it still waits, over any stretch of a run |
| BlockObjects.AccountedIffDisciplined | src/libgo/libgo/block_object.cpp:97-111 | all along a run every signal is stored or held by a task it was granted to, if and only if no task gives back a signal it does not hold |
| BlockObjects.HoldersAreNotRefused | src/libgo/libgo/block_object.cpp:97-111 | then, with no more signals at first than the limit, a Wakeup by a holder is not refused, in any state of any run |
| BlockObjects.MutexHasOneHolder | src/libgo/libgo/co_mutex.cpp:9-37 | of a BlockObject(1, 1) that only its holders unlock: either one task holds it and an unlock is accepted, or its signal is stored and an unlock is refused |
| BlockObjects.HeldUntilUnlocked | src/libgo/libgo/co_mutex.cpp:9-37 | a mutex that a task holds is granted to nobody before that task unlocks it |
| RWMutex.CoRWMutex.WriteTryLock | src/libgo/libgo/co_rwmutex.cpp:61-70 | undisturbed: the mutex is taken exactly when it is free and nobody reads, and is otherwise as it was; and it is what the atomic moves make of it, one after the other |
| RWMutex.CoRWMutex.ReadTryLock | src/libgo/libgo/co_rwmutex.cpp:31-40 | undisturbed: the reader counts itself exactly when the mutex is free; and it is what the atomic moves make of it |
| RWMutex.CoRWMutex.ReadUnlock | src/libgo/libgo/co_rwmutex.cpp:47-52 | the reader is counted no longer; the assertion fails exactly when none was counted; as the atomic move |
| RWMutex.CoRWMutex.WriteUnlock | src/libgo/libgo/co_mutex.cpp:33-37 | the mutex goes to the first waiting task; it throws exactly when it is not held; as the atomic move |
| RWMutex.MoveKeepsSafe | src/libgo/libgo/co_rwmutex.cpp:20-80 | every atomic step of any number of readers and writers keeps the invariant, and none of them fails |
| RWMutex.MovesHaveOutcomes | src/libgo/libgo/co_rwmutex.cpp:20-80 | in every history, by the sets of tasks: a reader that looks gets in if and only if no task holds the mutex, and is otherwise turned away, a try for good and a lock to try again; a writer gets the mutex if and only if no task holds it, and inside if and only if no reader has counted itself; an unlock hands the mutex to a task in line, if there is one; nobody else's role changes |
| RWMutex.NobodyWaitsForNothing | src/libgo/libgo/co_rwmutex.cpp:54-80 | while a task stands in line exactly one task holds the mutex; a task that does not stand in line has a move |
| RWMutex.LineIsServedInOrder | src/libgo/libgo/co_mutex.cpp:9-37 | a task in line that is handed the mutex joined the line before all others in it |
| RWMutex.WritersAreAlone | src/libgo/libgo/co_rwmutex.cpp:20-80 | in every run a writer inside excludes every other writer and every reader |
| RWMutex.CountsAreExact | src/libgo/libgo/co_rwmutex.cpp:20-29 | the count is the number of readers that have counted themselves, and the mutex has one holder or one signal |
| RWMutex.NoMoveFails | src/libgo/libgo/co_rwmutex.cpp:47-52 | the assertion of r_unlock holds and unlock never throws, in every reachable state |
| RWMutex.ReaderThenWriter | src/libgo/libgo/co_rwmutex.cpp:20-80 | both sides can be had: a history in which a reader is inside, leaves, and a writer gets in |
| RWMutex.ReadersDrain | src/libgo/libgo/co_rwmutex.cpp:54-59 | while a task holds the mutex the set of readers inside only shrinks |
| RedisWire.StatusIsRead | src/common/redispp.cpp:714-737 | a status line behind any white space is read, its line feed is left |
| RedisWire.KnownReplies | src/common/redispp.cpp:714-737 | each kind of reply in its bytes, as the readers are given it |
| RedisWire.IntegerIsRead | src/common/redispp.cpp:739-748 | every 64-bit integer reply is read, its line ending is left |
| RedisWire.BulkIsRead | src/common/redispp.cpp:757-780 | every bulk reply, nil or binary, is read, its last line ending is left |
| RedisWire.HeaderIsRead | src/common/redispp.cpp:642-655 | the header of every multi-bulk reply that is not nil is read |
| RedisWire.HeaderIsReadAsInteger | src/common/redispp.cpp:1294-1296 | the header of the reply to EXEC passes as an integer |
| RedisStream.ReadNumber | src/common/redispp.cpp:744-747 | stream >> number over the socket's buffer: for every split of the data by recv, the value and the rest are those of the plain stream |
| RedisStream.ReadStatusReply | src/common/redispp.cpp:724-737 | the same of a whole status reply |
| RedisStream.ReadIntegerReply | src/common/redispp.cpp:739-748 | the same of an integer reply |
| RedisStream.ReadBulkReply | src/common/redispp.cpp:757-780 | the same of a bulk reply, whose bytes are fetched by xsgetn |
| RedisStream.ReadMultiHeader | src/common/redispp.cpp:638-656 | the same of the header of a multi-bulk reply |
| RedisPipeline.FrontFrame | src/common/redispp.cpp:487-497 | with everything listed before a handle read, the unread bytes go on with its own reply |
| RedisPipeline.AnswerRead | src/common/redispp.cpp:513-525 | then the simple handle reads its own answer, and leaves the list in step with the stream |
| RedisPipeline.HeaderRead | src/common/redispp.cpp:638-656 | the enumerator reads the length of its own reply |
| RedisPipeline.ElementRead | src/common/redispp.cpp:663-665 | the enumerator reads its own next element |
| RedisPipeline.EnumeratedTwice | src/common/redispp.h:350-362 | readings of one enumerator compose: what was before it stays read, what is behind it untouched |
| RedisConnection.Connection.constructor | src/common/redispp.cpp:682-695 | a new connection has nothing outstanding |
| RedisConnection.Connection.Issue | src/common/redispp.cpp:457-465 | a command's handle will tell the command's own reply; nobody else's changes |
| RedisConnection.Connection.ClearPendingResults | src/common/redispp.cpp:487-497 | everything listed before the handle is read into its own handle; the rest is untouched |
| RedisConnection.Connection.Result | src/common/redispp.cpp:513-606 | result() of any simple handle, at any time, is its own command's answer, and no handle's answer changes |
| RedisConnection.Connection.ReadRest | src/common/redispp.h:350-362 | a pushed-aside enumerator keeps all its elements for its client |
| RedisConnection.Connection.NextOptional | src/common/redispp.cpp:626-666 | the next element of its own reply, whatever was forced before; nothing else changes |
| RedisConnection.Connection.Next | src/common/redispp.cpp:668-680 | the same, with the exception for a nil element |
| RedisConnection.Connection.Copy | src/common/redispp.cpp:467-474 | a copy tells what the original had to tell, and takes its place in the list; when the original still tells it too |
| RedisConnection.Connection.AssignSimple | src/common/redispp.h:161-167 | the assigned handle tells what the source had to tell, after finishing its own wait; what the source is left with; assigned to itself, a handle is read |
| RedisConnection.Connection.AssignEnumerator | src/common/redispp.h:330-343 | when it throws; that the stream falls out of step exactly when the old header was unread; and that elements the source had put aside are not taken over |
| RedisConnection.Connection.Destroy | src/common/redispp.cpp:612-624 | destroying a handle keeps the stream in step if and only if it is not an enumerator with its header unread or with elements behind a nil one |
| RedisConnection.Connection.ReadNext | src/common/redispp.cpp:513-606 | what result() reads over the socket's buffer, by the kind of the reply |
| RedisConnection.Connection.ForceTooEarly | src/common/redispp.cpp:487-497 | a handle of an open transaction that is forced before the commit: the lines of the transaction are read, and the first handle waited for finds nothing to read |
| RedisConnection.Connection.ReadOwn | src/common/redispp.cpp:513-525 | a connected simple handle reads its own answer after everything in front of it |
| RedisHandles.TransferGood | src/common/redispp.cpp:467-485 | taking over a wait and its place keeps list and stream in step |
| RedisHandles.CopyTellsTwice | src/common/redispp.h:157-159 | the original of a copy still tells its reply if and only if it had been read, or the answer is the default it stores; an enumerator, only at its end |
| RedisHandles.DropGood | src/common/redispp.cpp:476-485 | unlinking a handle unread keeps them in step if and only if no byte in the stream belongs to it |
| RedisHandles.DrainedDropGood | src/common/redispp.cpp:657-662 | an enumerator at its end can be unlinked at any time, while a transaction is open too |
| RedisHandles.NothingAfterNil | src/common/redispp.cpp:668-680 | what next() leaves after its exception is empty exactly when only the last element can be nil |
| RedisHandles.IssueGood | src/common/redispp.cpp:457-465 | a new handle at the end of the list, in or out of a transaction, keeps list and stream in step |
| RedisWaiting.PassedWaiting | src/common/redispp.cpp:487-497 | reading a reply nobody had begun to read takes it and all replies waited for before it off the list of those waited for, and no other; nothing else is then under way |
| RedisWaiting.TransferWaits | src/common/redispp.cpp:467-474 | a copy is waited for in the place of its original, with the same reply to come |
| RedisConnection.Connection.BeginTransaction | src/common/redispp.cpp:1236-1246 | a first one leaves list and stream in step exactly when nothing was outstanding; a second one throws, and spoils an open first one |
| RedisTransactions.EarlyBeginThrows | src/common/redispp.cpp:1279-1291 | begun while the first outstanding reply is not a status line, a transaction takes that reply for its own, and its commit throws |
| RedisTransactions.NestedBegin | src/common/redispp.cpp:461-464 | the throwing constructor spoils the connection's transaction exactly when that is still open |
| RedisConnection.Connection.CommitTransaction | src/common/redispp.cpp:1259-1303 | the item count matches, the stream stands at the first element of EXEC's reply, and every queued handle still has its own answer to tell, in any order |
| RedisTransactions.CommitAligned | src/common/redispp.cpp:1279-1303 | after commit the unread bytes are the queued handles' replies, in list order |
| RedisConnection.Connection.EndTransaction | src/common/redispp.cpp:1248-1277 | the Transaction object leaves no trace after a commit; without one it aborts, and list and stream stay in step if and only if no command was queued |
| RedisTransactions.AbortGood | src/common/redispp.cpp:1297-1301 | after DISCARD the queued handles wait for replies that never come |
| RedisSession.Perform | src/common/redispp.cpp:457-680 | one call, of any kind, tells the client what it would be told without a pipeline, and leaves the rest as such a client has it |
| RedisSession.Session | src/common/redispp.cpp:457-680 | over every session of commands, in and out of transactions, and every splitting of the data by recv, whose handles are forced, read, copied, assigned and dropped in any order, the sources of copies included, each call tells the client what it would be told without a pipeline: its own command's reply, but for what `CopyTellsTwice` and `AssignsAllIff` except |
| RedisSession.DropIsExact | src/common/redispp.cpp:612-624 | a client may drop an enumerator, by what it knows from its own calls, if and only if no byte of its reply is left behind |
| RedisSession.OverwriteIsExact | src/common/redispp.h:330-343 | and assign another to it if and only if list and stream stay in step |
| RedisSession.AssignsAllIff | src/common/redispp.h:330-343 | such an assignment hands over all there was to tell exactly if the source was not put aside with elements left |
| RedisSession.MayReadIsExact | src/common/redispp.cpp:487-497 | and read a handle if and only if it is not waited for in an open transaction |
| RedisSession.BeginIsExact | src/common/redispp.cpp:1236-1246 | and begin a transaction if and only if no reply is outstanding |
| RedisPitfalls.PutAsideIsLost | src/common/redispp.h:330-343 | three commands, one forced result and one assignment after which an element is lost |
| RedisPitfalls.CopyForgets | src/common/redispp.cpp:467-474 | a number copied before it is read: the copy tells 7, and the original 0 |
| RedisPitfalls.ForcedBeforeCommit | src/common/redispp.cpp:487-497 | a command of a transaction, forced before the commit, finds nothing |
| RedisPitfalls.DroppedUnread | src/common/redispp.cpp:612-624 | one command whose enumerator is destroyed unread, after which list and stream are out of step |
| RedisPitfalls.SecondTransaction | src/common/redispp.cpp:1236-1246 | a second transaction beside an open one throws and spoils it |
| RedisPitfalls.BegunTooEarly | src/common/redispp.cpp:1236-1246 | a transaction begun with a number outstanding, whose commit throws |
| RedisPitfalls.Aborted | src/common/redispp.cpp:1268-1277 | a transaction that ends without its commit, whose command waits for ever |
| SocketBuffer.StreamBuf.Underflow | src/common/redispp.cpp:203-208 | fills the used-up buffer from whatever recv() gives, without changing the stream |
| SocketBuffer.StreamBuf.Bump | src/common/redispp.cpp:203-208 | byte by byte, the stream is handed out in order |
| SocketBuffer.StreamBuf.Xsgetn | src/common/redispp.cpp:210-248 | for every way recv() splits the data: exactly the requested count, being the next bytes of the stream, and the rest stays to be read |
| RespCommand.Buffer.CheckSpace | src/common/redispp.cpp:364-370 | refuses exactly what would not leave a byte free |
| RespCommand.Buffer.WriteArg | src/common/redispp.cpp:322-331 | accepted exactly with 16 bytes to spare beyond the argument, and then written in full within the buffer |
| RespCommand.LengthFits | src/common/redispp.cpp:388-400 | eleven bytes are enough for every length |
| RespCommand.Buffer.Execute | src/common/redispp.h:27-55 | header and arguments behind the mark; accepted exactly when the header and each argument, with its 16 bytes to spare, fit where they come to stand |
| RespCommand.CommandRoundTrip | src/common/redispp.cpp:441-451 | a server reading the command gets its name and every binary argument, and stops at its end |
| RespCommand.KnownCommand | src/common/redispp.cpp:441-451 | the command LLEN mylist in its bytes |
| CrcRegister.TableHoldsRemainders | src/common/slothash.h:38-71 | each of the 256 entries is what eight steps of the division make of that byte |
| CrcRegister.ShiftsAreLinear | src/common/slothash.h:75-76 | the steps of the division are linear over exclusive or |
| CrcRegister.ByteAtOnce | src/common/slothash.h:75-76 | one turn of the table loop is the division by eight bits of the message |
| SlotHash.Crc16 | src/common/slothash.h:36-78 | the table loop is the bit-by-bit remainder by 0x1021, most significant bit first, initial value 0, for every byte string |
| SlotHash.SlotByKey | src/common/slothash.h:82-101 | the slot, below 16384, is that of the part of the key the specification names |
| SlotHash.SlotIsRemainder | src/common/slothash.h:89-100 | the slot is the checksum modulo 16384, as a number |
| SlotHash.CheckValue | src/common/slothash.h:36-78 | the nine digits 123456789 have the checksum 0x31C3 and the slot 12739 |
| SlotHash.HashedIsTagOrKey | src/common/slothash.h:82-101 | what is hashed is the first non-empty hash tag as the specification defines it, and else the whole key |
| SlotHash.SameTagSameSlot | src/common/slothash.h:82-101 | keys with the same hash tag have the same slot |
| SlotRouting.Cluster.Init | src/common/cluster.h:180-214 | ready exactly when the reply is an array each of whose rows has two integers and a node's host and port, and each node answers; then an entry is in the map if and only if some row's first and second integer, as unsigned ints, are its range and the connection to that row's own node its connection, and no row in front starts with the same slot |
| SlotRouting.InsertedIsSorted | src/common/container.h:68-80 | inserting keeps the map ordered and loses no entry |
| SlotRouting.Cluster.SearchBySlots | src/common/container.h:103-126 | lower_bound and one step back, with no entry before the first |
| SlotRouting.SearchIsScan | src/common/container.h:103-126 | if every range that is not empty ends before the next one starts, the search finds what a scan of all ranges finds, and fails if and only if none holds the slot |
| SlotRouting.SearchIsScanIff | src/common/container.h:103-126 | over all unsigned ints, search and scan agree if and only if that holds and no range reaches the last one, for which index + 1 wraps |
| SlotRouting.OverlapMisroutes | src/common/container.h:103-126 | a range that reaches the start of the next loses that slot to it |
| SlotRouting.DisjointIsOrdered | src/common/container.h:103-126 | the condition holds for non-empty ranges that do not overlap |
| SlotRouting.EmptyRangeHides | src/common/container.h:103-126 | an empty range can hide the range that holds the slot |
| SlotRouting.Cluster.GetConnection | src/common/cluster.h:117-126 | the key's slot, looked up; an exception before initialisation |
| SlotRouting.EveryKeyIsRouted | src/common/cluster.h:117-126 | with ranges over all slots every key is routed, to the node that holds its slot |
| SlotRouting.InitHoldsEntries | src/common/cluster.h:186-206 | the same of the rows turned into entries one by one |
| SlotRouting.InsertAllHoldsRows | src/common/container.h:68-80 | of entries with the same first slot the first one inserted is in the map, and nothing else is |
| SlotRouting.InitAndRoute | src/common/cluster.h:117-214 | initialised from rows whose integers are ranges that are not empty, do not overlap and cover all slots, and whose nodes answer, the cluster routes every key to the node of the row whose integers enclose the key's slot |
| SlotRouting.SameTagSameNode | src/common/cluster.h:117-126 | keys that share a hash tag go to the same node |
| ConnectionPool.ThreadedPool.FillPool | src/fastcgi/redis_cluster.hpp:57-71 | ten new connections in order |
| ConnectionPool.ThreadedPool.PullConnection | src/fastcgi/redis_cluster.hpp:74-87 | the first idle connection; with none, the thread waits and has changed nothing |
| ConnectionPool.ThreadedPool.InsertHost | src/fastcgi/redis_cluster.hpp:110-133 | the first idle connection of the host's pool, which is made if there is none |
| ConnectionPool.ThreadedPool.Process | src/common/hirediscommand.h:161-231 | each outcome that returns, and the one that throws without a second lease, gives every leased connection back to its own pool; one that throws later loses the redirect's; a pull that waits is reported with what was done before it |
| ConnectionPool.TurnedKeeps | src/common/hirediscommand.h:161-231 | a pool whose connection was taken and given back holds the same connections |
| ConnectionPool.RoundRobin | src/fastcgi/redis_cluster.hpp:74-97 | commands take the connections of a pool in turn, and after as many as it has the first comes again |
| ConnectionPool.QueuesAreFifo | src/fastcgi/redis_cluster.hpp:74-97 | in every interleaving a step takes the front of a pool's queue, for the thread that pulls or to be freed, or puts one connection behind it, or leaves it alone |
| ConnectionPool.ThreadedPool.DisconnectPool | src/fastcgi/redis_cluster.hpp:168-191 | frees the pool's ten connections one pull at a time, each once, as far as they are idle |
| ConnectionPool.StepKeepsInv | src/fastcgi/redis_cluster.hpp:57-191 | the invariant over pools, leases, freed and lost connections is kept by every step of every thread |
| ConnectionPool.ConnectionsAreConserved | src/fastcgi/redis_cluster.hpp:74-97 | in every interleaving a pool's connection is idle, leased by one thread, freed or lost, and exactly one of these |
| ConnectionPool.PoolsAreApart | src/fastcgi/redis_cluster.hpp:146-158 | a connection is only ever idle in, or leased from, the pool it was made for |
| ConnectionPool.TenPullsAreAll | src/fastcgi/redis_cluster.hpp:178-183 | ten pulls by disconnect have freed each of the pool's ten connections |
| ConnectionPool.FreedOnce | src/fastcgi/redis_cluster.hpp:168-191 | when disconnect deletes a pool each of its ten connections has been freed, and none twice |
| ConnectionPool.LostIsWaitedFor | src/common/hirediscommand.h:186-214 | a pool that has lost a connection is never deleted: disconnect waits for ever |
| FifoMaps.FifoMap.Compare | src/common/json_parser/fifo_map.hpp:53-73 | the comparator's answer, and the zeros it leaves in the side table |
| FifoMaps.FifoMap.AddKey | src/common/json_parser/fifo_map.hpp:75-78 | a known key keeps its timestamp, and the next timestamp is used up |
| FifoMaps.TimestampCounts | src/common/json_parser/fifo_map.hpp:75-78 | after any history the next timestamp is one more than the number of inserts and assignments in it, whatever their keys |
| FifoMaps.FifoMap.Search | src/common/json_parser/fifo_map.hpp:402-417 | the search by comparisons, with what it leaves in the side table |
| FifoMaps.FifoMap.Insert | src/common/json_parser/fifo_map.hpp:288-300 | insert, on whatever side table |
| FifoMaps.FifoMap.Assign | src/common/json_parser/fifo_map.hpp:162-173 | operator[] with an assignment |
| FifoMaps.FifoMap.Erase | src/common/json_parser/fifo_map.hpp:376-386 | erase by key, which leaves an unknown key in the side table |
| FifoMaps.CleanSearch | src/common/json_parser/fifo_map.hpp:53-73 | while the timestamps are those of the entries, the search by timestamps is the search by keys |
| FifoMaps.CallOnClean | src/common/json_parser/fifo_map.hpp:281-386 | any call that does not insert a key looked up in vain acts as on an association list |
| FifoMaps.MapIsList | src/common/json_parser/fifo_map.hpp:53-417 | over every history in which no key is inserted after it was looked up in vain, the map is the association list: order of first insertion since last erase, values and answers |
| FifoMaps.MapIsListIff | src/common/json_parser/fifo_map.hpp:53-417 | map and list agree after every prefix of a history, and after one more insert there, if and only if no key is inserted in it after it was looked up in vain |
| FifoMaps.InsertKeepsCleanIff | src/common/json_parser/fifo_map.hpp:288-300 | an insert keeps the timestamps those of the entries exactly if its key was not looked up in vain |
| FifoMaps.OutOfOrder | src/common/json_parser/fifo_map.hpp:288-300 | insert a, find b, insert b, insert c: the map has the keys in the order a, c, b |
| FifoMaps.LateInsertBreaksOrder | src/common/json_parser/fifo_map.hpp:288-300 | after such a late insert the next new key comes in front of it |
| FifoMaps.SecondLateInsertIsLost | src/common/json_parser/fifo_map.hpp:288-300 | and a second late insert is lost |

## Left out

- Floating-point numbers: `strtod`, `snprintf` and the 15-digit printing; a number that is not an integer keeps its text.
- JsonValues.Equal: compares floating-point numbers by their text and other kinds of numbers by value, with the cast of an unsigned one to 64-bit signed.
- JsonUnflatten.Unflatten: a negative array index, a very large size in C++, is modelled as the length error that growing the array throws; the pointer walk that writes through a reference is modelled on values.
- JsonNumbers.GetNumber: the conversion of the most negative 64-bit integer is two's complement.
- JSON parser callbacks, stream-backed lexing, error message texts, and `json_fifo_map.hpp`, which repeats `json_map.hpp` with another object type.
- Block objects outside coroutines, where waiting polls; a wait on a destroyed object; reference counts of tasks.
- The scheduler, and with it progress: nothing is said about when a task that can move does move.
- RedisConnection.Connection: reply objects are named by their addresses in one map of values, so two references to one object are not modelled.
- RedisConnection.Connection.AssignEnumerator: not an enumerator assigned to itself, which for a connected one asks the list for the place of an object that is not in it.
- RedisConnection.Connection.ClearPendingResults: like the other readers, not for a handle waited for in an open transaction, where the source waits for ever; `ForceTooEarly` says how far it gets.
- RedisConnection.Connection.Result: error replies, ill-typed replies and a broken connection; the readers give None there.
- RedisSession.Session: calls that would bring list and stream out of step, or wait for ever, as the lemmas on its limits show.
- RedisTransactions.EarlyBeginThrows: if the first outstanding reply is a status line, it is taken for the reply to MULTI, and what follows depends on the other replies.
- `Connection::type`, which reads at once and needs an empty list; subscriptions, quit and shutdown.
- RedisStream.ReadBulkReply: None when the peer stops inside the bulk, where the source goes on with a string of zeros and a bad stream.
- RespCommand.CommandRoundTrip: for arguments shorter than 2^32 bytes, which is every argument a buffer holds in practice; integer arguments go through a foreign generator.
- SlotHash.SlotByKey: the length of the key is not cut to an int.
- JsonLayout.DumpLayout: for values whose floating-point texts hold no blank and no punctuation, as `snprintf` writes them.
- SlotRouting.Cluster.Init: the whole text of a host is used, where the source passes a C string.
- SlotRouting.SearchIsScan: excludes the last unsigned int, which is no slot; `SearchIsScanIff` includes it.
- ConnectionPool: connections are numbers given out in order and connecting succeeds; distinct ranges have distinct first slots; `disconnect` runs in one thread at a time; the null entry it leaves for a deleted pool, whose use is undefined, is modelled as no entry.
- The default container's connections by host, `asynchirediscommand.h`, and the wiring of callbacks.
- `fifo_map`: copying, swapping, hints, ranges and erasing by iterator; the order in which the tree compares its keys, which changes neither the answer nor the side table.
- Sockets, configuration, logging, the FastCGI router, MySQL, PDF conversion and the HTTP client.
