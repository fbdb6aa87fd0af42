# lockd in Dafny

lockd is a small lock service that speaks a line protocol over TCP. Clients
take and release **exclusive locks** (one holder per lock name) and **shared
locks** (a list of holders per name). They can also inspect a lock or dump the
lock tables. The server releases every lock a client holds when that
client's connection ends, and it counts what happens in a statistics table.

This project models four parts of lockd and proves properties about them:

- `wrappers.dfy` (module `Wrappers`): `Option` and `Result`.
- `utils.dfy` (module `Utils`): the shared helpers of `lib/utils.js`.
  - `splitAtFirstSpace` is the tokenizer that both ends of the wire use.
  - `parseHostPort` validates `[host:]port`.
  - Also here: JavaScript's `indexOf`, the `+val` number conversion, and
    the `%d` decimal formatting.
- `server.dfy` (module `Server`): the server of `server/index.js`.
  - Values: the reply texts; the exclusive and shared tables as maps, with
    the pure effect of every command on them; the dump listings; the
    statistics; the display-name lookup.
  - `class LockdServer`: the state. Its fields `exclusiveLocks`,
    `sharedLocks`, `registry` and `stats` are updated in place by one method
    per command handler, by `Receive` (line dispatch) and by `Disconnect`
    (orphan cleanup).
- `socket.dfy` (module `Socket`): the client transport of
  `client/transports/socket.js`.
  - The transport is an event-driven state machine. Its state is the task
    queue, the pause flag, the single reader slot, the requests written, the
    responses delivered, the `error` events emitted, and the
    `disconnecting` flag with its close callbacks.
  - The pure function `Step` gives the effect of each event: connect, a
    request, a line, the read timer, `disconnect` and `close`.
  - `class SocketTransport` holds the same state in fields. Each method is
    proved to move the state exactly as `Step` says.
- `client.dfy` (module `Client`): the client of `client/index.js`.
  - Each operation is a transport task (the message plus how many lines to
    read back) and a decoder from the transport's response to what the
    callback receives.
  - Covered: the six simple methods with `_processResponseLine`; `_dump`,
    `listClients` and `getStats`; `getName`; `setName` with its
    `0 disabled` sentinel.
- `protocol.dfy` (module `Protocol`): lemmas that join client and server.
  - Each request message is the one command line the server dispatches.
  - Each server reply decodes on the client to what the server meant. This
    holds for the six single-line commands and for full and filtered dumps
    of both tables.
  - A dump holder name containing `': '` is the one case the client cannot
    rebuild (`Client.SplitEntryAmbiguous`).

How JavaScript behaviour is modelled:

- **Truthiness.** A holder is a non-empty string (`Server.Holder`), so
  `exclusiveLocks[lock]` is truthy exactly when the lock is a key. A name
  argument is truthy when it is given and not empty (`Client.Truthy`).
- **`+val`** is `Utils.ToNumber`. The empty string gives 0, a digit string
  gives its value, and anything else gives NaN.
- **`substring`** clamps and swaps its bounds, as JavaScript does. So a line
  without `': '` gives an empty name and the line minus its first character.
- **`new Error(null)`** has the message `"null"`.
- **Key order.** JavaScript object keys have an order the model does not fix.
  A full `d` or `sd` reply is therefore specified for some enumeration of
  the keys: every key exactly once (`Server.Enumerates`).

Two behaviours of the code are worth stating outright:

- The client sends `me`, `iam`, `who` and `q` (`client/index.js:91`, `:111`,
  `:130-134`, `:168`), but the command table of `server/index.js:77-219` has
  no handler for any of them. `server/index.js:228-231` counts such a line
  as an invalid command and sends nothing (`Protocol.UnservedRequest`).
  Against this server, `getName` and `setName` therefore time out with
  `Expected 1 line but got 0` (`Socket.FixedTimeout`), which is what
  `test/client.js:360-362` expects.
- A filtered `sd` of a lock nobody holds returns `null`
  (`server/index.js:192-195`), so nothing is written (`Server.SharedDumpReply`,
  `NoReply`). The client's collecting read then returns no lines, which
  decode to `[]`.

## Model

| member | source | states |
|---|---|---|
| Utils.IndexOf | lib/utils.js:25 | the result is -1 or an index where the pattern occurs, with no occurrence before it (-1: none at all) |
| Utils.CharIndex | lib/utils.js:25 | -1 exactly when the character is absent; otherwise its first position |
| Utils.NatToString | server/index.js:144-146 | `%d` text: non-empty, all digits, no leading zero above 9 |
| Utils.DecimalRoundTrip | server/index.js:144-146 | reading back the decimal text of n gives n |
| Utils.ToNumber | lib/utils.js:36 | `+val`: NaN exactly for non-digit strings, the digits' value otherwise, 0 for "" |
| Utils.ToNumberOfNat | client/index.js:202 | `+` of a formatted count is that count |
| Utils.SplitAtFirstSpace | lib/utils.js:24-40 | the first part has no space; a second part exists iff the message has a space, and first + " " + second is the message; with no space the message is returned whole |
| Utils.SplitAtFirstSpaceNumber | lib/utils.js:35-37 | with `firstPartIsNumber` the first part goes through `+val`; the rest is unchanged |
| Utils.SplitRoundTrip | lib/utils.js:24-40 | a space-free word joined to any text by one space splits back into the two |
| Utils.SplitNoSpace | lib/utils.js:32-33 | a message without a space gives (message, null) |
| Utils.PortResult | lib/utils.js:11-15 | a port whose value is 0 is rejected with `Port 0 is not valid.`; otherwise the host and the value |
| Utils.ParseHostPort | lib/utils.js:2-20 | success gives a port > 0 and a host (if any) matching `[\w-.]+` such that the input is `host:digits` or bare digits; every failure is one of the two errors |
| Utils.ParseHostPortGrammar | lib/utils.js:3 | the malformed-string error is raised exactly for strings outside `^(([\w-.]+):)?(\d+)$` |
| Utils.ColonSplitsOnce | lib/utils.js:3 | a string with a `:` is not a bare port, and it matches the pattern only when split at its first `:` |
| Utils.ParseHostAndPort | lib/utils.js:3-16 | `host:digits` parses to that host and value, or to the port-0 error |
| Utils.ParseBarePort | lib/utils.js:3-16 | bare digits parse to no host and their value, or to the port-0 error |
| Server.GetReply | server/index.js:82-87 | defines the `g` reply: `1 Lock Get Success: <lock>` or `0 Lock Get Failure: <lock>` (decoded by `Protocol.GetDecoded`) |
| Server.ReleaseReply | server/index.js:94-99 | defines the `r` reply: `1 Lock Release Success: <lock>` or `0 Lock Release Failure: <lock>` (decoded by `Protocol.ReleaseDecoded`) |
| Server.InspectReply | server/index.js:106-110 | defines the `i` reply: `1 Lock Is Locked: <lock>` or `0 Lock Not Locked: <lock>` (decoded by `Protocol.InspectDecoded`) |
| Server.SharedGetReply | server/index.js:144-146 | defines the `sg` reply: the holder count in decimal, then `Shared Lock Get Success: <lock>` (decoded by `Protocol.SharedGetDecoded`) |
| Server.SharedReleaseReply | server/index.js:156-165 | defines the `sr` reply: `1 Shared Lock Release Success: <lock>` or `0 Shared Lock Release Failure: <lock>` (decoded by `Protocol.SharedReleaseDecoded`) |
| Server.SharedInspectReply | server/index.js:172-177 | defines the `si` reply: the holder count then `Shared Lock Is Locked: <lock>`, or `0 Shared Lock Not Locked: <lock>` (decoded by the `Protocol.SharedInspect…Decoded` lemmas) |
| Server.DumpLine | server/index.js:122 | defines a dump line: the lock, `': '`, the display name (split back by `Protocol.DumpLineEntry`) |
| Server.Join | server/index.js:241 | defines `Array.prototype.join`: the lines with the separator between consecutive ones (framing stated by `Protocol.FramedLines`) |
| Server.Frame | server/index.js:236-243 | `null` sends nothing, the dump snapshot goes as JSON, and every written text ends in a newline |
| Server.AfterGet | server/index.js:82-87 | defines the table after `g`: the lock set to the client when the get succeeds, unchanged otherwise (`Server.GetIdempotent`, `Server.GetExcludesOthers`) |
| Server.AfterRelease | server/index.js:94-99 | defines the table after `r`: the lock deleted when the client holds it, unchanged otherwise (`Server.ReleaseUndoesGet`) |
| Server.ReleaseAll | server/index.js:250-255 | defines the table after disconnect cleanup: every entry not held by the client (`Server.ReleaseAllExact`) |
| Server.AfterSharedGet | server/index.js:138-143 | defines the table after `sg`: the list, created if absent, with the client appended unless present (`Server.SharedGetCount`) |
| Server.AfterSharedRelease | server/index.js:153-165 | defines the table after `sr`: the filtered list stored, or the lock deleted when it empties; unchanged when the client was absent (`Server.SharedReleaseValid`) |
| Server.SharedReleaseAll | server/index.js:258-271 | defines the table after disconnect cleanup: each list filtered, the emptied ones dropped (`Server.SharedReleaseAllExact`) |
| Server.GetIdempotent | server/index.js:82-86 | a client re-getting a lock it may take leaves the table as the first get did |
| Server.GetExcludesOthers | server/index.js:82-83 | after a's successful get, b's get fails; a failed get changes nothing |
| Server.ReleaseUndoesGet | server/index.js:94-96 | releasing a lock just taken on a free name restores the table |
| Server.ReleaseAllExact | server/index.js:250-255 | disconnect cleanup removes exactly the client's locks, keeps every other entry, and its size drop is the orphan count |
| Server.Without | server/index.js:154-156 | `filter(h !== client)`: the other holders remain; shorter exactly when the client was present |
| Server.WithoutAbsent | server/index.js:153-157 | filtering out an absent client returns the list unchanged |
| Server.WithoutNoDuplicates | server/index.js:154-156 | filtering keeps a duplicate-free list duplicate-free, one shorter if the client was in it |
| Server.WithoutAppended | server/index.js:154-156 | removing a holder just appended to a list without it gives the list back |
| Server.SharedGetCount | server/index.js:138-146 | `sg` keeps each list non-empty and duplicate-free, puts the client in, and adds one to the count only for a new holder |
| Server.SharedGetIdempotent | server/index.js:141-143 | a repeated `sg` changes nothing |
| Server.SharedReleaseValid | server/index.js:157-165 | `sr` keeps the table valid, the client is never left in the list, a successful release shortens it by one |
| Server.SharedReleaseUndoesGet | server/index.js:135-166 | `sr` right after a client's first `sg` succeeds and restores the table |
| Server.SharedReleaseAllExact | server/index.js:258-271 | disconnect cleanup leaves the client in no list and other locks' lists unchanged; a list the client was in keeps exactly its other holders, and is dropped iff it had no other |
| Server.Bump | server/index.js:281-284 | the counter becomes `(stats[name] or 0) + 1`, adding the key if absent; every other counter is unchanged |
| Server.ClientName | server/index.js:277-279 | the registered name when the holder has a non-empty one; the holder itself when it has none or an empty one; never empty |
| Server.ExclusiveLines | server/index.js:128-130 | one `lock: name` line per listed lock, in the listed order |
| Server.HolderLines | server/index.js:189-191 | one `lock: name` line per holder, in list order |
| Server.SharedLines | server/index.js:197-203 | defines a full `sd`: the holder lines of each lock in the listing order, concatenated (`Server.SharedLinesCount`, `Protocol.SharedDumpDecoded`) |
| Server.SharedLinesCount | server/index.js:197-203 | a full `sd` sends one line per holder over all locks |
| Server.CommandAndArgument | server/index.js:224-226 | a space-free command followed by ` arg` (or nothing) yields that command and argument (or '') |
| Server.CommandOf | server/index.js:224-225 | the command is space-free, and is the whole line when the line has no space |
| Server.ArgumentOf | server/index.js:224-226 | with a space, the line is the command, one space, the argument; without one, the argument is '' |
| Server.ReleaseStep | server/index.js:250-255 | one cleanup iteration deletes the key iff the client holds it, and counts one orphan iff so |
| Server.ReleasedInAll | server/index.js:250-255 | once every key is visited the table is the cleaned table and the orphans are the client's locks |
| Server.SharedReleaseStep | server/index.js:259-270 | one shared cleanup iteration replaces or deletes the list iff the client is in it, and counts one orphan iff so |
| Server.SharedReleasedInAll | server/index.js:258-271 | once every key is visited the shared table is the cleaned table and the orphans are the client's locks |
| Server.LockdServer.constructor | server/index.js:39-70 | each feature flag is the option given or true; empty tables and registry; the sixteen counters at 0 |
| Server.LockdServer.Connect | server/index.js:20 | a new connection adds one to `connections` |
| Server.LockdServer.G | server/index.js:79-88 | the lock goes to the client unless another client holds it; the reply says which |
| Server.LockdServer.R | server/index.js:91-100 | only the holder's release deletes the lock; the reply says which |
| Server.LockdServer.I | server/index.js:103-111 | the reply says whether any client holds the lock; nothing changes |
| Server.LockdServer.D | server/index.js:114-132 | `0 disabled` when dumps are off; one line for a held named lock and no reply for a free one; a full dump lists every lock once with its holder's display name |
| Server.LockdServer.Sg | server/index.js:135-147 | the client joins the list once; the reply carries the new holder count |
| Server.LockdServer.Sr | server/index.js:150-166 | the client leaves the list, and the lock goes when the list empties; failure when it was not in it |
| Server.LockdServer.Si | server/index.js:169-178 | the holder count when the client is in the list, the not-locked line otherwise; nothing changes |
| Server.LockdServer.HolderLinesOf | server/index.js:189-191 | the `lock: name` lines of one lock's holders, in list order |
| Server.LockdServer.Sd | server/index.js:181-205 | `0 disabled` when dumps are off; a named lock's holder lines, or no reply when absent; a full dump lists every holder of every lock |
| Server.LockdServer.Dump | server/index.js:208-218 | `0 disabled` when dumps are off; the shared table for `shared`, the exclusive table otherwise |
| Server.LockdServer.Dispatch | server/index.js:235 | a known command has exactly its handler's effect and reply, and keeps the shared table valid |
| Server.LockdServer.Receive | server/index.js:221-244 | an unknown command only counts as invalid and sends nothing; a known one bumps `command_<cmd>`, runs the handler on the parsed argument, and sends its reply framed (arrays joined by newlines, then a newline; null sends nothing) |
| Server.LockdServer.Disconnect | server/index.js:246-275 | the client's exclusive and shared locks are released; `orphans` and `shared_orphans` grow by how many it held; its registry entry goes; `connections` drops by one |
| Server.LockdServer.ReleaseExclusiveOf | server/index.js:250-255 | the loop removes exactly the client's exclusive locks and counts them |
| Server.LockdServer.ReleaseSharedOf | server/index.js:258-271 | the loop takes the client out of every shared list, drops emptied locks, and counts the locks it was in |
| Socket.StartRead | client/transports/socket.js:106-110 | a read of zero lines resolves at once with no lines; every other read arms a reader |
| Socket.Mismatch | client/transports/socket.js:117-120 | defines the timeout message `Expected <n> line<s> but got <k>`, with the `s` only when n is not 1 |
| Socket.Pump | client/transports/socket.js:14-16 | defines the queue worker: while running and no read is pending, the next task is written and its read started (`Socket.PumpInv`) |
| Socket.Deliver | client/transports/socket.js:123-154 | defines a reader taking a line: a fixed reader resolves with its lines once it has the wanted count, a collecting one when the line is its terminator (`Socket.DeliverFits`) |
| Socket.Feed | client/transports/socket.js:27-51 | defines the line handler: blank lines ignored, a line with no reader an `error` event, otherwise the reader takes it (`Socket.FeedInv`) |
| Socket.Expire | client/transports/socket.js:115-145 | defines the read timer: a fixed read fails with the mismatch message, a collecting read returns its lines (`Socket.ExpireInv`) |
| Socket.OnClosed | client/transports/socket.js:53-60 | defines `close`: re-emitted unless disconnecting; every waiting `disconnect` clears the flag and completes (`Socket.CloseWhileDisconnecting`, `Socket.CloseOtherwise`) |
| Socket.Step | client/transports/socket.js:14-169 | defines each event's effect on the transport (`Socket.StepInv`, `Socket.StepOrder`) |
| Socket.InitialInv | client/transports/socket.js:14-19 | the new transport (queue paused, slot empty) satisfies the invariant |
| Socket.PumpInv | client/transports/socket.js:14-23 | the queue worker keeps the invariant and only extends written requests and responses; it does nothing while paused or reading |
| Socket.ResolveFramed | client/transports/socket.js:123-132 | answering the pending request with a fitting response keeps requests and responses paired |
| Socket.DeliverFits | client/transports/socket.js:43-50 | a line either leaves the reader fitting its request or resolves it, emptying the slot |
| Socket.FeedInv | client/transports/socket.js:27-51 | the line handler keeps the invariant; it only appends, unless it reports an unexpected line |
| Socket.TimedOutFits | client/transports/socket.js:115-121 | the timer answers a pending read with a response of the kind its request asked for |
| Socket.ExpireInv | client/transports/socket.js:115-145 | the read timer keeps the invariant and only appends |
| Socket.StepInv | client/transports/socket.js:14-169 | every transport event keeps the invariant |
| Socket.StepOrder | client/transports/socket.js:67-88 | an event adds to the written-then-queued requests only the request it submits |
| Socket.RunOrder | client/transports/socket.js:14-23 | after any event sequence, written requests then queued ones are exactly the submitted requests, in order |
| Socket.OneInFlight | client/transports/socket.js:14-16 | at most one request awaits its response, and a new write happens only once every earlier one is answered |
| Socket.BlankLineIgnored | client/transports/socket.js:28-36 | a blank line changes nothing |
| Socket.UnexpectedLine | client/transports/socket.js:37-42 | a line with no reader armed only emits the unexpected-data error |
| Socket.ZeroLinesAtOnce | client/transports/socket.js:106-110 | a zero-line request submitted to an idle running queue is answered at once with no lines |
| Socket.FixedProgress | client/transports/socket.js:123-131 | fewer lines than a fixed reader wants are kept in arrival order, and the reader stays armed |
| Socket.FixedReadsExactly | client/transports/socket.js:112-132 | the wanted number of lines empties the slot and resolves the read with those lines |
| Socket.FixedTimeout | client/transports/socket.js:115-121 | a fixed read timing out after k < n lines fails with `Expected n line(s) but got k` |
| Socket.FeedAllSplit | client/transports/socket.js:27-51 | feeding lines one by one is feeding the prefix then the last line |
| Socket.CollectProgress | client/transports/socket.js:147-154 | a collecting reader keeps lines in arrival order until its terminator |
| Socket.TerminatorReads | client/transports/socket.js:147-154 | the terminator line resolves a collecting read at once and is part of the response |
| Socket.CollectTimeout | client/transports/socket.js:139-145 | without its terminator, a collecting read returns all its lines when the timer fires, never an error |
| Socket.CloseWhileDisconnecting | client/transports/socket.js:159-168 | during a disconnect, `close` is not re-emitted; it clears the flag and runs every waiting callback |
| Socket.CloseOtherwise | client/transports/socket.js:53-60 | outside a disconnect, `close` is re-emitted and nothing else changes |
| Socket.SocketTransport.constructor | client/transports/socket.js:7-19 | the new transport's state is the initial state |
| Socket.SocketTransport.Read | client/transports/socket.js:90-157 | zero lines resolve at once; otherwise the slot holds the armed reader |
| Socket.SocketTransport.Work | client/transports/socket.js:14-16 | the worker loop leaves the state the queue function gives |
| Socket.SocketTransport.OnConnect | client/transports/socket.js:21-23 | the state moves as a connect event does |
| Socket.SocketTransport.Request | client/transports/socket.js:67-88 | the state moves as submitting the task does |
| Socket.SocketTransport.OnLine | client/transports/socket.js:27-51 | the state moves as receiving the line does |
| Socket.SocketTransport.OnTimeout | client/transports/socket.js:115-145 | the state moves as the read timer firing does |
| Socket.SocketTransport.Disconnect | client/transports/socket.js:159-169 | the state moves as `disconnect` does |
| Socket.SocketTransport.OnClose | client/transports/socket.js:53-60 | the state moves as the socket's `close` does |
| Client.Clamp | client/index.js:147-149 | a `substring` bound: a negative one becomes 0, one past the end the length, any other is kept |
| Client.Substring | client/index.js:147-149 | in-range bounds give the slice between them, in either order; the result is never longer than the string |
| Client.SubstringSwap | client/index.js:147-149 | swapping the two bounds gives the same substring |
| Client.SplitEntry | client/index.js:236-238 | the name part never contains `': '` |
| Client.SplitEntryRoundTrip | client/index.js:236-238 | a name without `': '` and any value, joined by `': '`, split back into the two |
| Client.SplitEntryAmbiguous | client/index.js:236-238 | for every name containing `': '` and every value, `name: value` splits at the name's first separator, so the name is not recovered |
| Client.ProcessResponseLine | client/index.js:197-208 | a transport error passes through; a line succeeds iff its code is non-zero or failures are allowed; an Error carries the text after the code (`null` if none) |
| Client.ResponseLineOfCode | client/index.js:202-207 | `<n> <text>` succeeds with (n, text) when n ≠ 0 or failures are allowed, else fails with the text |
| Client.SimpleTask | client/index.js:49-57 | the request is `<cmd> <objName>\n`, read back as one line |
| Client.SimpleOutcome | client/index.js:53-55 | a transport error passes through; otherwise the first line is processed with the method's `failureIsError` |
| Client.InspectNeverFails | client/index.js:66 | the inspect methods never turn a reply line into an Error |
| Client.ZeroIsError | client/index.js:203-206 | for the other simple methods, `0 <text>` becomes an Error with the text |
| Client.GetNameOutcome | client/index.js:88-105 | an error passes through; a zero or non-numeric code is an Error (its text, or the bad-response message); a good reply splits into address and name; a code with no rest throws |
| Client.GetNameRoundTrip | client/index.js:96-103 | `1 <addr> <name>` with a space-free address decodes to the two |
| Client.SetNameOutcome | client/index.js:108-119 | a `0 disabled` first line is the registry-disabled error; otherwise the line is processed with failures as Errors |
| Client.GetNameTask | client/index.js:91 | defines the `getName` task: `me`, read back as one line (`Protocol.GetNameRequestLine`) |
| Client.SetNameTask | client/index.js:111 | defines the `setName` task: `iam <name>`, read back as one line (`Protocol.SetNameRequestLine`) |
| Client.LastWins | client/index.js:233-245 | defines folding `name: value` lines into an object, a later line overwriting an earlier one (`Client.LastWinsKeys`, `Client.LastWinsValue`) |
| Client.LastWinsKeys | client/index.js:146-151 | folding lines into an object gives exactly the keys the lines carry |
| Client.LastWinsValue | client/index.js:146-151 | a key's value comes from the last line carrying that key |
| Client.SharedEntries | client/index.js:241 | defines the shared fold: each line's holder is appended to its name's list (`Client.SharedInLineOrder`) |
| Client.SharedInLineOrder | client/index.js:241 | a shared dump gives, for each name, its holders in line order; names with no line are absent |
| Client.DumpTask | client/index.js:219-223 | `d`/`sd`, ` name` only for a truthy name, read until `0 disabled` or the timer |
| Client.DecodeDump | client/index.js:211-253 | an error passes through; a lone `0 disabled` is the dump-disabled error; otherwise the folded table, or for a name its holder (null if absent or empty) or its holders (`[]` if absent) |
| Client.ExclusiveLocksOf | client/index.js:235-245 | the exclusive fold maps each name to the holder on its last line |
| Client.SharedLocksOf | client/index.js:235-245 | the shared fold appends each holder to its name's list |
| Client.ListClientsTask | client/index.js:130-134 | the read ends at `0 disabled` or the timer (the message is stated by `Protocol.ListClientsRequestLine`) |
| Client.ListClients | client/index.js:122-159 | an error passes through; a lone `0 disabled` is the disabled error; otherwise name to address, last line winning, or one address (null if absent or empty) |
| Client.GetStatsTask | client/index.js:168 | defines the `getStats` task: `q`, read until the timer (`Protocol.GetStatsRequestLine`) |
| Client.GetStats | client/index.js:162-184 | an error passes through; otherwise each `key: value` line sets the key to `+value`, last line winning |
| Protocol.SimpleRequestLine | server/index.js:224-228 | a simple method's message is one line whose parsed command is the method's known command and whose argument is the object name |
| Protocol.DumpRequestLine | client/index.js:219-221 | a dump request is one line that the server parses as `d`/`sd` with the name, or with '' when none is given |
| Protocol.ListClientsRequestLine | client/index.js:130-134 | `listClients` sends one line that parses as `who` with the name for a truthy name and '' otherwise; `who` is not a server command |
| Protocol.GetNameRequestLine | client/index.js:91 | `getName` sends `me`, which is not a server command |
| Protocol.SetNameRequestLine | client/index.js:111 | `setName` sends one line that parses as `iam` with the name; `iam` is not a server command |
| Protocol.GetStatsRequestLine | client/index.js:168 | `getStats` sends `q`, which is not a server command |
| Protocol.UnservedRequest | server/index.js:228-231 | a request whose command is outside the table, with or without an argument, parses to an unknown command |
| Protocol.FlagLine | client/index.js:202-207 | a `1`/`0` reply decodes to code 1 or 0 with its text, or to an Error with the text when failures are errors |
| Protocol.GetDecoded | server/index.js:79-88 | `get` sees code 1 on success and an Error naming the lock on failure |
| Protocol.ReleaseDecoded | server/index.js:91-100 | `release` sees code 1 on success and an Error naming the lock on failure |
| Protocol.InspectDecoded | server/index.js:103-111 | `inspect` sees code 1 or 0 with the text, never an Error |
| Protocol.SharedGetDecoded | server/index.js:135-147 | `getShared` sees the holder count as the code |
| Protocol.SharedReleaseDecoded | server/index.js:150-166 | `releaseShared` sees code 1 on success and an Error on failure |
| Protocol.SharedInspectHeldDecoded | server/index.js:175-177 | `inspectShared` by a holder sees the holder count |
| Protocol.SharedInspectFreeDecoded | server/index.js:172-174 | `inspectShared` by a non-holder sees code 0, not an Error |
| Protocol.GetOverWire | server/index.js:79-88 | the framed `g` reply decodes to success iff the lock then belongs to the client |
| Protocol.FramedLines | server/index.js:240-243 | an array reply is sent as its lines each ending in a newline; an empty array as one blank line |
| Protocol.DumpLineNotDisabled | client/index.js:228 | no dump line is the `0 disabled` sentinel |
| Protocol.DumpLineEntry | client/index.js:236-238 | a dump line splits back into its lock and name when the lock has no `': '` |
| Protocol.ExclusiveLinesEntries | server/index.js:128-130 | the i-th line of a full `d` decodes to the i-th lock and its holder's display name |
| Protocol.ExclusiveDumpValue | client/index.js:243 | each listed lock decodes to its holder's display name |
| Protocol.ExclusiveDumpKeys | client/index.js:235-245 | the decoded locks are among the listed ones |
| Protocol.ExclusiveDumpDecoded | server/index.js:128-130 | a full `d` decodes to exactly the held locks, each with its holder's display name, in any listing order |
| Protocol.ExclusiveLinesNotDisabled | client/index.js:228-231 | a full `d` is never taken for the disabled reply |
| Protocol.ExclusiveFilteredDecoded | client/index.js:247-248 | a filtered `d` of a held lock decodes to its holder's display name, never null |
| Protocol.Names | server/index.js:190 | each holder's display name, in list order |
| Protocol.HoldersNamedAppend | client/index.js:241 | the holders a name collects from two runs of lines are the first run's then the second's |
| Protocol.HoldersNamedOfHolderLines | server/index.js:189-191 | the lines of one shared lock name only that lock, with its holders' names in order |
| Protocol.HoldersNamedOfSharedLines | server/index.js:197-203 | in a full `sd`, the lines naming a lock are its holders' names in order |
| Protocol.SharedDumpName | server/index.js:196-204 | a name is in the decoded shared dump iff it is a shared lock, with its holders' names |
| Protocol.SharedDumpDecoded | server/index.js:196-204 | a full `sd` decodes to exactly the shared locks, each with its holders' display names in list order |
| Protocol.SharedFilteredDecoded | server/index.js:187-191 | a filtered `sd` of a held shared lock decodes to its holders' display names in order |

## Left out

- TCP and the `split` stream are not modelled. The server sees a connection
  as an opaque holder string and a stream of lines. The client transport
  sees a stream of events (`connect`, lines, the read timer, `close`).
  Concatenated writes being re-split into lines is not modelled;
  `Protocol.FramedLines` states the framing that splitting relies on.
- Timers are events, not time. `readTimeout` (default 100 ms) is not
  modelled, and neither is the `process.nextTick` before a callback.
- The `async.queue` callbacks are not modelled. The queue is a sequence
  plus a paused flag.
- `EventEmitter` re-emission of `connect`/`error`/`close` is not modelled
  as listener calls. Emitted errors and `close`s are a list and a counter
  in the transport state.
- The `LockdClient` and `LockdServer` constructors' connection wiring is
  not modelled: `parseHostPort` on `options.tcp`, `net.connect`,
  `server.listen`, and the error when no `tcp` option is given.
  `parseHostPort` itself is modelled.
- The `dump` command's `JSON.stringify` text is not modelled. The reply
  carries the table it would serialise.
- `Utils.ToNumber`: only digit strings and the empty string are handled
  as in JavaScript. Signs, decimal points, exponents, hex and whitespace
  trimming, which `+val` also accepts, give NaN here.
- `util.format` is modelled only for the way this code calls it: with a
  string or a natural number.
- JavaScript's `Object.prototype` keys (e.g. a lock named `constructor`)
  behave as ordinary absent keys here.
- The order of keys in an object, and so the order of a full dump's lines,
  is not modelled. It is any order listing every key once.
- The server handlers for `me`, `iam`, `who` and `q` do not exist in
  `server/index.js`. The `locks` and `shared_locks` counters are created
  at 0 and never updated. Both are as in the code.
- `Server.LockdServer.Disconnect`: the orphan counters are added once,
  after each cleanup loop, and not once per iteration. The final
  statistics are the same.
- `Socket.SocketTransport.Read`: the reader is a value in the slot, not a
  closure shared with the timer. The read timer acts on whichever reader
  is armed.
- `Client.ListClients`: the argument shuffles for a missing `clientName`
  or `lockName` (a function passed in its place) are modelled by an
  `Option` argument. The same holds for `_dump`'s `lockName`.
- The client's `disconnect` wrapper (client/index.js:187-193) only passes
  its callback to the transport. It is covered by
  `Socket.SocketTransport.Disconnect`.
- The tests, `bin/` and the remaining files of the repository are not part
  of this model.
