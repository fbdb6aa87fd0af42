/**
 * The lockd server (server/index.js): the exclusive-lock table, the
 * shared-lock table, the registry, the statistics counters and the nine
 * line commands that read and change them.
 */
module Server {
  import opened Wrappers
  import Utils

  // ---------------------------------------------------------------------
  // Values
  // ---------------------------------------------------------------------

  /** A connection identity, `remoteAddress + ':' + remotePort`; never empty. */
  type Holder = s: string | s != "" witness ":"

  /** The feature flags fixed at construction. */
  datatype Features = Features(registry: bool, dump: bool)

  /** The `features` option: an absent flag keeps its default (true). */
  datatype Options = Options(registry: Option<bool>, dump: Option<bool>)

  /** The structure the `dump` command serialises. */
  datatype Snapshot =
    | ExclusiveTable(exclusive: map<string, Holder>)
    | SharedTable(shared: map<string, seq<Holder>>)

  /** What a command handler returns: one line, an array of lines, null, or JSON. */
  datatype Reply = Text(line: string) | Lines(lines: seq<string>) | NoReply | Json(snapshot: Snapshot)

  /** What `receive` hands to the connection: nothing, a text, or JSON text plus a newline. */
  datatype Outgoing = Silent | Write(text: string) | WriteJson(snapshot: Snapshot)

  /** The command table. */
  const Commands: set<string> := {"g", "r", "i", "d", "sg", "sr", "si", "sd", "dump"}

  const Disabled: string := "0 disabled"

  // ---------------------------------------------------------------------
  // Reply texts
  // ---------------------------------------------------------------------

  /** The result code that starts a one-line reply: 1 for success, 0 for failure. */
  function Flag(ok: bool): string {
    if ok then "1" else "0"
  }

  /** A one-line reply: the result code, a space, the message. */
  function Coded(code: string, text: string): string {
    code + " " + text
  }

  function GetReply(ok: bool, lock: string): string {
    Coded(Flag(ok), (if ok then "Lock Get Success: " else "Lock Get Failure: ") + lock)
  }

  function ReleaseReply(ok: bool, lock: string): string {
    Coded(Flag(ok), (if ok then "Lock Release Success: " else "Lock Release Failure: ") + lock)
  }

  function InspectReply(locked: bool, lock: string): string {
    Coded(Flag(locked), (if locked then "Lock Is Locked: " else "Lock Not Locked: ") + lock)
  }

  function SharedGetReply(count: nat, lock: string): string {
    Coded(Utils.NatToString(count), "Shared Lock Get Success: " + lock)
  }

  function SharedReleaseReply(ok: bool, lock: string): string {
    Coded(Flag(ok), (if ok then "Shared Lock Release Success: " else "Shared Lock Release Failure: ") + lock)
  }

  /** `si`: the holder count when the client holds the lock, the failure line otherwise. */
  function SharedInspectReply(count: Option<nat>, lock: string): string {
    match count
    case Some(n) => Coded(Utils.NatToString(n), "Shared Lock Is Locked: " + lock)
    case None => Coded(Flag(false), "Shared Lock Not Locked: " + lock)
  }

  function DumpLine(lock: string, name: string): string {
    lock + ": " + name
  }

  /** `Array.prototype.join`. */
  function Join(lines: seq<string>, sep: string): string {
    if lines == [] then ""
    else if |lines| == 1 then lines[0]
    else lines[0] + sep + Join(lines[1..], sep)
  }

  /** What `receive` sends for a handler's reply: arrays joined by newlines, then one newline. */
  function Frame(reply: Reply): (o: Outgoing)
    ensures o.Silent? <==> reply.NoReply?
    ensures o.WriteJson? <==> reply.Json?
    ensures o.Write? ==> |o.text| > 0 && o.text[|o.text| - 1] == '\n'
  {
    match reply
    case NoReply => Silent
    case Text(s) => Write(s + "\n")
    case Lines(ls) => Write(Join(ls, "\n") + "\n")
    case Json(snapshot) => WriteJson(snapshot)
  }

  // ---------------------------------------------------------------------
  // Exclusive locks
  // ---------------------------------------------------------------------

  /** `g` succeeds unless another client holds the lock. */
  predicate GetSucceeds(ex: map<string, Holder>, client: Holder, lock: string) {
    !(lock in ex && ex[lock] != client)
  }

  /** `r` succeeds only for the current holder. */
  predicate ReleaseSucceeds(ex: map<string, Holder>, client: Holder, lock: string) {
    lock in ex && ex[lock] == client
  }

  function AfterGet(ex: map<string, Holder>, client: Holder, lock: string): map<string, Holder> {
    if GetSucceeds(ex, client, lock) then ex[lock := client] else ex
  }

  function AfterRelease(ex: map<string, Holder>, client: Holder, lock: string): map<string, Holder> {
    if ReleaseSucceeds(ex, client, lock) then ex - {lock} else ex
  }

  /** The exclusive locks a client holds. */
  function HeldBy(ex: map<string, Holder>, client: Holder): set<string> {
    set lock | lock in ex && ex[lock] == client
  }

  /** The exclusive table once a client's locks are released. */
  function ReleaseAll(ex: map<string, Holder>, client: Holder): map<string, Holder> {
    map lock | lock in ex && ex[lock] != client :: ex[lock]
  }

  lemma GetIdempotent(ex: map<string, Holder>, client: Holder, lock: string)
    requires GetSucceeds(ex, client, lock)
    ensures GetSucceeds(AfterGet(ex, client, lock), client, lock)
    ensures AfterGet(AfterGet(ex, client, lock), client, lock) == AfterGet(ex, client, lock)
  {
  }

  lemma GetExcludesOthers(ex: map<string, Holder>, a: Holder, b: Holder, lock: string)
    requires a != b
    ensures GetSucceeds(ex, a, lock) ==> !GetSucceeds(AfterGet(ex, a, lock), b, lock)
    ensures !GetSucceeds(ex, a, lock) ==> AfterGet(ex, a, lock) == ex
  {
  }

  /** Releasing an unheld lock right after getting it restores the table. */
  lemma ReleaseUndoesGet(ex: map<string, Holder>, client: Holder, lock: string)
    requires lock !in ex
    ensures ReleaseSucceeds(AfterGet(ex, client, lock), client, lock)
    ensures AfterRelease(AfterGet(ex, client, lock), client, lock) == ex
  {
    assert ex[lock := client] - {lock} == ex;
  }

  /** Disconnect cleanup removes exactly the client's locks and keeps every other entry. */
  lemma ReleaseAllExact(ex: map<string, Holder>, client: Holder)
    ensures ReleaseAll(ex, client).Keys == ex.Keys - HeldBy(ex, client)
    ensures forall lock :: lock in ReleaseAll(ex, client) ==> ReleaseAll(ex, client)[lock] == ex[lock]
    ensures HeldBy(ReleaseAll(ex, client), client) == {}
    ensures |ReleaseAll(ex, client)| + |HeldBy(ex, client)| == |ex|
  {
    var rest := ReleaseAll(ex, client);
    assert rest.Keys + HeldBy(ex, client) == ex.Keys;
    assert rest.Keys !! HeldBy(ex, client);
  }

  // ---------------------------------------------------------------------
  // Shared locks
  // ---------------------------------------------------------------------

  predicate NoDuplicates(hs: seq<Holder>) {
    forall i, j :: 0 <= i < j < |hs| ==> hs[i] != hs[j]
  }

  /** Every stored holder list is non-empty and duplicate-free. */
  predicate SharedTableValid(sh: map<string, seq<Holder>>) {
    forall lock :: lock in sh ==> sh[lock] != [] && NoDuplicates(sh[lock])
  }

  /** `sharedLocks[lock] || []` */
  function Holders(sh: map<string, seq<Holder>>, lock: string): seq<Holder> {
    if lock in sh then sh[lock] else []
  }

  /** `holders.filter(h => h !== client)` */
  function Without(hs: seq<Holder>, client: Holder): (r: seq<Holder>)
    ensures forall h :: h in r <==> h in hs && h != client
    ensures |r| <= |hs|
    ensures client in hs <==> |r| < |hs|
  {
    if hs == [] then []
    else if hs[0] == client then Without(hs[1..], client)
    else [hs[0]] + Without(hs[1..], client)
  }

  /** `sg`: the client is appended unless already present. */
  function AfterSharedGet(sh: map<string, seq<Holder>>, client: Holder, lock: string): map<string, seq<Holder>> {
    var hs := Holders(sh, lock);
    sh[lock := if client in hs then hs else hs + [client]]
  }

  /** `sr` succeeds iff the client is in the list. */
  predicate SharedReleaseSucceeds(sh: map<string, seq<Holder>>, client: Holder, lock: string) {
    client in Holders(sh, lock)
  }

  /** `sr`: the client leaves the list, and the name goes once its list is empty. */
  function AfterSharedRelease(sh: map<string, seq<Holder>>, client: Holder, lock: string): map<string, seq<Holder>> {
    var rest := Without(Holders(sh, lock), client);
    if !SharedReleaseSucceeds(sh, client, lock) then sh
    else if rest != [] then sh[lock := rest]
    else sh - {lock}
  }

  /** The shared locks whose list contains a client. */
  function SharedHeldBy(sh: map<string, seq<Holder>>, client: Holder): set<string> {
    set lock | lock in sh && client in sh[lock]
  }

  /** The shared table once a client leaves every list. */
  function SharedReleaseAll(sh: map<string, seq<Holder>>, client: Holder): map<string, seq<Holder>> {
    map lock | lock in sh && Without(sh[lock], client) != [] :: Without(sh[lock], client)
  }

  lemma {:induction false} WithoutAbsent(hs: seq<Holder>, client: Holder)
    requires client !in hs
    ensures Without(hs, client) == hs
  {
    if hs != [] {
      WithoutAbsent(hs[1..], client);
    }
  }

  lemma {:induction false} WithoutNoDuplicates(hs: seq<Holder>, client: Holder)
    requires NoDuplicates(hs)
    ensures NoDuplicates(Without(hs, client))
    ensures client in hs ==> |Without(hs, client)| == |hs| - 1
  {
    if hs != [] {
      WithoutNoDuplicates(hs[1..], client);
      if hs[0] == client {
        WithoutAbsent(hs[1..], client);
      } else {
        var r := Without(hs[1..], client);
        assert hs[0] !in r;
        assert forall i :: 0 < i < |[hs[0]] + r| ==> ([hs[0]] + r)[i] == r[i - 1];
      }
    }
  }

  /** Removing a holder just appended to a list without it gives the list back. */
  lemma {:induction false} WithoutAppended(hs: seq<Holder>, client: Holder)
    requires client !in hs
    ensures Without(hs + [client], client) == hs
  {
    if hs == [] {
      assert Without([client], client) == Without([], client);
    } else {
      assert (hs + [client])[1..] == hs[1..] + [client];
      WithoutAppended(hs[1..], client);
    }
  }

  /** `sg` keeps the shared table valid; the count rises by one only for a new holder. */
  lemma SharedGetCount(sh: map<string, seq<Holder>>, client: Holder, lock: string)
    requires SharedTableValid(sh)
    ensures SharedTableValid(AfterSharedGet(sh, client, lock))
    ensures client in AfterSharedGet(sh, client, lock)[lock]
    ensures |AfterSharedGet(sh, client, lock)[lock]| ==
      if client in Holders(sh, lock) then |Holders(sh, lock)| else |Holders(sh, lock)| + 1
  {
    var hs := Holders(sh, lock);
    if client !in hs {
      assert forall i :: 0 <= i < |hs| ==> (hs + [client])[i] == hs[i];
    }
  }

  /** Repeating `sg` changes nothing. */
  lemma SharedGetIdempotent(sh: map<string, seq<Holder>>, client: Holder, lock: string)
    ensures AfterSharedGet(AfterSharedGet(sh, client, lock), client, lock) == AfterSharedGet(sh, client, lock)
  {
  }

  /** `sr` keeps the shared table valid and never leaves the client in the list. */
  lemma SharedReleaseValid(sh: map<string, seq<Holder>>, client: Holder, lock: string)
    requires SharedTableValid(sh)
    ensures SharedTableValid(AfterSharedRelease(sh, client, lock))
    ensures client !in Holders(AfterSharedRelease(sh, client, lock), lock)
    ensures SharedReleaseSucceeds(sh, client, lock) ==>
      |Holders(AfterSharedRelease(sh, client, lock), lock)| == |Holders(sh, lock)| - 1
  {
    if lock in sh {
      WithoutNoDuplicates(sh[lock], client);
    }
  }

  /** `sr` right after the client's first `sg` restores the table. */
  lemma SharedReleaseUndoesGet(sh: map<string, seq<Holder>>, client: Holder, lock: string)
    requires SharedTableValid(sh)
    requires client !in Holders(sh, lock)
    ensures SharedReleaseSucceeds(AfterSharedGet(sh, client, lock), client, lock)
    ensures AfterSharedRelease(AfterSharedGet(sh, client, lock), client, lock) == sh
  {
    var hs := Holders(sh, lock);
    WithoutAppended(hs, client);
    if lock in sh {
      assert sh[lock := hs] == sh;
    } else {
      assert sh[lock := hs + [client]] - {lock} == sh;
    }
  }

  /**
   * Disconnect cleanup on the shared table: the client leaves exactly the lists
   * it was in (every other holder stays), lists without it are untouched, and
   * no empty list is stored.
   */
  lemma SharedReleaseAllExact(sh: map<string, seq<Holder>>, client: Holder)
    requires SharedTableValid(sh)
    ensures SharedTableValid(SharedReleaseAll(sh, client))
    ensures SharedHeldBy(SharedReleaseAll(sh, client), client) == {}
    ensures forall lock :: lock in sh && client !in sh[lock] ==>
      lock in SharedReleaseAll(sh, client) && SharedReleaseAll(sh, client)[lock] == sh[lock]
    ensures forall lock :: lock in sh && client in sh[lock] ==>
      (lock in SharedReleaseAll(sh, client) <==> |sh[lock]| > 1)
    ensures forall lock, h :: lock in SharedReleaseAll(sh, client) && client in sh[lock] ==>
      (h in SharedReleaseAll(sh, client)[lock] <==> h in sh[lock] && h != client)
    ensures SharedReleaseAll(sh, client).Keys <= sh.Keys
  {
    forall lock | lock in sh
      ensures NoDuplicates(Without(sh[lock], client))
      ensures client in sh[lock] ==> |Without(sh[lock], client)| == |sh[lock]| - 1
      ensures client !in sh[lock] ==> Without(sh[lock], client) == sh[lock]
    {
      WithoutNoDuplicates(sh[lock], client);
      if client !in sh[lock] {
        WithoutAbsent(sh[lock], client);
      }
    }
  }

  // ---------------------------------------------------------------------
  // Statistics
  // ---------------------------------------------------------------------

  const InitialStats: map<string, int> := map[
    "command_d" := 0, "command_sd" := 0, "command_i" := 0, "command_si" := 0,
    "command_g" := 0, "command_sg" := 0, "command_r" := 0, "command_sr" := 0,
    "command_q" := 0, "command_dump" := 0, "connections" := 0, "locks" := 0,
    "shared_locks" := 0, "orphans" := 0, "shared_orphans" := 0, "invalid_commands" := 0]

  /** Counters the server updates with `++`/`--`, present from construction on. */
  const CountedStats: set<string> := {"connections", "orphans", "shared_orphans", "invalid_commands"}

  /** `bumpStat`: `(stats[name] || 0) + 1`. */
  function Bump(stats: map<string, int>, name: string): (r: map<string, int>)
    ensures r.Keys == stats.Keys + {name}
    ensures r[name] == (if name in stats then stats[name] else 0) + 1
    ensures forall k :: k in stats && k != name ==> r[k] == stats[k]
  {
    stats[name := (if name in stats then stats[name] else 0) + 1]
  }

  /** `stats[name]++` on a present counter, by `delta`. */
  function Add(stats: map<string, int>, name: string, delta: int): map<string, int>
    requires name in stats
  {
    stats[name := stats[name] + delta]
  }

  // ---------------------------------------------------------------------
  // Dump listings
  // ---------------------------------------------------------------------

  /** `clientName`: the registered name when it is non-empty, otherwise the holder itself. */
  function ClientName(registry: map<Holder, string>, client: Holder): (name: string)
    ensures name != ""
    ensures name == client || (client in registry && name == registry[client])
    ensures client !in registry ==> name == client
    ensures client in registry && registry[client] != "" ==> name == registry[client]
    ensures client in registry && registry[client] == "" ==> name == client
  {
    if client in registry && registry[client] != "" then registry[client] else client
  }

  /** `order` lists every key of `keys` exactly once. */
  ghost predicate Enumerates(order: seq<string>, keys: set<string>) {
    && (forall i, j :: 0 <= i < j < |order| ==> order[i] != order[j])
    && (forall k :: k in order <==> k in keys)
  }

  /** The lines of a full `d`, taking the locks in `order`. */
  function ExclusiveLines(ex: map<string, Holder>, registry: map<Holder, string>, order: seq<string>): (ls: seq<string>)
    requires forall k :: k in order ==> k in ex
    ensures |ls| == |order|
    ensures forall i :: 0 <= i < |order| ==> ls[i] == DumpLine(order[i], ClientName(registry, ex[order[i]]))
    decreases |order|
  {
    if order == [] then []
    else
      var last := order[|order| - 1];
      ExclusiveLines(ex, registry, order[..|order| - 1]) + [DumpLine(last, ClientName(registry, ex[last]))]
  }

  /** One `lock: holder` line per holder of one shared lock, in list order. */
  function HolderLines(registry: map<Holder, string>, lock: string, hs: seq<Holder>): (ls: seq<string>)
    ensures |ls| == |hs|
    ensures forall i :: 0 <= i < |hs| ==> ls[i] == DumpLine(lock, ClientName(registry, hs[i]))
    decreases |hs|
  {
    if hs == [] then []
    else HolderLines(registry, lock, hs[..|hs| - 1]) + [DumpLine(lock, ClientName(registry, hs[|hs| - 1]))]
  }

  /** The lines of a full `sd`, taking the locks in `order`. */
  function SharedLines(sh: map<string, seq<Holder>>, registry: map<Holder, string>, order: seq<string>): seq<string>
    requires forall k :: k in order ==> k in sh
    decreases |order|
  {
    if order == [] then []
    else
      var last := order[|order| - 1];
      SharedLines(sh, registry, order[..|order| - 1]) + HolderLines(registry, last, sh[last])
  }

  /** The number of lines of a full `sd` is the total number of holders. */
  function HolderTotal(sh: map<string, seq<Holder>>, order: seq<string>): nat
    requires forall k :: k in order ==> k in sh
    decreases |order|
  {
    if order == [] then 0 else HolderTotal(sh, order[..|order| - 1]) + |sh[order[|order| - 1]]|
  }

  lemma {:induction false} SharedLinesCount(sh: map<string, seq<Holder>>, registry: map<Holder, string>, order: seq<string>)
    requires forall k :: k in order ==> k in sh
    ensures |SharedLines(sh, registry, order)| == HolderTotal(sh, order)
    decreases |order|
  {
    if order != [] {
      SharedLinesCount(sh, registry, order[..|order| - 1]);
    }
  }

  /** The reply of `d` to `lock` on the given tables. */
  ghost predicate ExclusiveDumpReply(features: Features, ex: map<string, Holder>, registry: map<Holder, string>,
                                     lock: string, reply: Reply) {
    if !features.dump then reply == Text(Disabled)
    else if lock != "" then
      reply == if lock in ex then Text(DumpLine(lock, ClientName(registry, ex[lock]))) else NoReply
    else
      reply.Lines? && exists order :: Enumerates(order, ex.Keys) && reply.lines == ExclusiveLines(ex, registry, order)
  }

  /** The reply of `sd` to `lock` on the given tables. */
  ghost predicate SharedDumpReply(features: Features, sh: map<string, seq<Holder>>, registry: map<Holder, string>,
                                  lock: string, reply: Reply) {
    if !features.dump then reply == Text(Disabled)
    else if lock != "" then
      reply == if lock in sh then Lines(HolderLines(registry, lock, sh[lock])) else NoReply
    else
      reply.Lines? && exists order :: Enumerates(order, sh.Keys) && reply.lines == SharedLines(sh, registry, order)
  }

  /** The reply of `dump` to `arg`. */
  function DumpReply(features: Features, ex: map<string, Holder>, sh: map<string, seq<Holder>>, arg: string): Reply {
    if !features.dump then Text(Disabled)
    else if arg == "shared" then Json(SharedTable(sh))
    else Json(ExclusiveTable(ex))
  }

  // ---------------------------------------------------------------------
  // Parsing a request line
  // ---------------------------------------------------------------------

  /** `receive`: the command is the text before the first space. */
  function CommandOf(line: string): (cmd: string)
    ensures ' ' !in cmd
    ensures ' ' !in line ==> cmd == line
  {
    Utils.SplitAtFirstSpace(line).0
  }

  /** `receive`: the argument is the text after the first space, or '' when there is none. */
  function ArgumentOf(line: string): (arg: string)
    ensures ' ' in line ==> line == CommandOf(line) + " " + arg
    ensures ' ' !in line ==> arg == ""
  {
    Utils.SplitAtFirstSpace(line).1.GetOr("")
  }

  lemma CommandAndArgument(cmd: string, arg: string)
    requires ' ' !in cmd
    ensures CommandOf(cmd + " " + arg) == cmd && ArgumentOf(cmd + " " + arg) == arg
    ensures CommandOf(cmd) == cmd && ArgumentOf(cmd) == ""
  {
    Utils.SplitRoundTrip(cmd, arg);
    Utils.SplitNoSpace(cmd);
  }

  /**
   * What handling the command `cmd` with argument `arg` does: the tables it
   * leaves (`ex`, `sh` before, `ex'`, `sh'` after) and the reply it gives.
   */
  ghost predicate Handled(features: Features, registry: map<Holder, string>, client: Holder, cmd: string, arg: string,
                          ex: map<string, Holder>, sh: map<string, seq<Holder>>,
                          ex': map<string, Holder>, sh': map<string, seq<Holder>>, reply: Reply) {
    && ex' == (if cmd == "g" then AfterGet(ex, client, arg) else if cmd == "r" then AfterRelease(ex, client, arg) else ex)
    && sh' == (if cmd == "sg" then AfterSharedGet(sh, client, arg)
               else if cmd == "sr" then AfterSharedRelease(sh, client, arg) else sh)
    && (cmd == "g" ==> reply == Text(GetReply(GetSucceeds(ex, client, arg), arg)))
    && (cmd == "r" ==> reply == Text(ReleaseReply(ReleaseSucceeds(ex, client, arg), arg)))
    && (cmd == "i" ==> reply == Text(InspectReply(arg in ex, arg)))
    && (cmd == "d" ==> ExclusiveDumpReply(features, ex, registry, arg, reply))
    && (cmd == "sg" ==> reply == Text(SharedGetReply(|sh'[arg]|, arg)))
    && (cmd == "sr" ==> reply == Text(SharedReleaseReply(SharedReleaseSucceeds(sh, client, arg), arg)))
    && (cmd == "si" ==> reply == Text(SharedInspectReply(
          if client in Holders(sh, arg) then Some(|sh[arg]|) else None, arg)))
    && (cmd == "sd" ==> SharedDumpReply(features, sh, registry, arg, reply))
    && (cmd == "dump" ==> reply == DumpReply(features, ex, sh, arg))
  }

  // ---------------------------------------------------------------------
  // Disconnect cleanup, one key at a time
  // ---------------------------------------------------------------------

  /** The exclusive table once the keys in `done` have been visited by the cleanup loop. */
  function ReleasedIn(ex: map<string, Holder>, client: Holder, done: set<string>): map<string, Holder> {
    map lock | lock in ex && !(lock in done && ex[lock] == client) :: ex[lock]
  }

  /** The visited keys the client held. */
  function HeldIn(ex: map<string, Holder>, client: Holder, done: set<string>): set<string> {
    set lock | lock in done && lock in ex && ex[lock] == client
  }

  lemma ReleaseStep(ex: map<string, Holder>, client: Holder, done: set<string>, k: string)
    requires k in ex && k !in done
    ensures k in ReleasedIn(ex, client, done) && ReleasedIn(ex, client, done)[k] == ex[k]
    ensures ReleasedIn(ex, client, done + {k}) ==
      if ex[k] == client then ReleasedIn(ex, client, done) - {k} else ReleasedIn(ex, client, done)
    ensures |HeldIn(ex, client, done + {k})| ==
      if ex[k] == client then |HeldIn(ex, client, done)| + 1 else |HeldIn(ex, client, done)|
  {
    if ex[k] == client {
      assert HeldIn(ex, client, done + {k}) == HeldIn(ex, client, done) + {k};
    } else {
      assert HeldIn(ex, client, done + {k}) == HeldIn(ex, client, done);
    }
  }

  lemma ReleasedInAll(ex: map<string, Holder>, client: Holder, done: set<string>)
    requires done == ex.Keys
    ensures ReleasedIn(ex, client, done) == ReleaseAll(ex, client)
    ensures HeldIn(ex, client, done) == HeldBy(ex, client)
  {
  }

  /** The shared table once the keys in `done` have been visited by the cleanup loop. */
  function SharedReleasedIn(sh: map<string, seq<Holder>>, client: Holder, done: set<string>): map<string, seq<Holder>> {
    map lock | lock in sh && (lock !in done || Without(sh[lock], client) != []) ::
      if lock in done then Without(sh[lock], client) else sh[lock]
  }

  /** The visited shared locks whose list contained the client. */
  function SharedHeldIn(sh: map<string, seq<Holder>>, client: Holder, done: set<string>): set<string> {
    set lock | lock in done && lock in sh && client in sh[lock]
  }

  lemma SharedReleaseStep(sh: map<string, seq<Holder>>, client: Holder, done: set<string>, k: string)
    requires k in sh && k !in done && sh[k] != []
    ensures k in SharedReleasedIn(sh, client, done) && SharedReleasedIn(sh, client, done)[k] == sh[k]
    ensures var rest := Without(sh[k], client);
      SharedReleasedIn(sh, client, done + {k}) ==
        if |sh[k]| == |rest| then SharedReleasedIn(sh, client, done)
        else if rest != [] then SharedReleasedIn(sh, client, done)[k := rest]
        else SharedReleasedIn(sh, client, done) - {k}
    ensures |SharedHeldIn(sh, client, done + {k})| ==
      if client in sh[k] then |SharedHeldIn(sh, client, done)| + 1 else |SharedHeldIn(sh, client, done)|
  {
    if client in sh[k] {
      assert SharedHeldIn(sh, client, done + {k}) == SharedHeldIn(sh, client, done) + {k};
    } else {
      WithoutAbsent(sh[k], client);
      assert SharedHeldIn(sh, client, done + {k}) == SharedHeldIn(sh, client, done);
    }
  }

  lemma SharedReleasedInAll(sh: map<string, seq<Holder>>, client: Holder, done: set<string>)
    requires done == sh.Keys
    ensures SharedReleasedIn(sh, client, done) == SharedReleaseAll(sh, client)
    ensures SharedHeldIn(sh, client, done) == SharedHeldBy(sh, client)
  {
  }

  // ---------------------------------------------------------------------
  // The server
  // ---------------------------------------------------------------------

  class LockdServer {
    const features: Features
    var exclusiveLocks: map<string, Holder>
    var sharedLocks: map<string, seq<Holder>>
    var registry: map<Holder, string>
    var stats: map<string, int>

    ghost predicate Valid()
      reads this
    {
      SharedTableValid(sharedLocks) && CountedStats <= stats.Keys
    }

    constructor (options: Options)
      ensures Valid()
      ensures features == Features(options.registry.GetOr(true), options.dump.GetOr(true))
      ensures exclusiveLocks == map[] && sharedLocks == map[] && registry == map[]
      ensures stats == InitialStats
    {
      features := Features(options.registry.GetOr(true), options.dump.GetOr(true));
      exclusiveLocks := map[];
      sharedLocks := map[];
      registry := map[];
      stats := InitialStats;
    }

    /** An accepted connection counts in `connections`. */
    method Connect()
      requires Valid()
      modifies this`stats
      ensures Valid()
      ensures stats == Add(old(stats), "connections", 1)
    {
      stats := stats["connections" := stats["connections"] + 1];
    }

    /** `g`: get an exclusive lock. */
    method G(client: Holder, lock: string) returns (reply: Reply)
      modifies this`exclusiveLocks
      ensures reply == Text(GetReply(GetSucceeds(old(exclusiveLocks), client, lock), lock))
      ensures exclusiveLocks == AfterGet(old(exclusiveLocks), client, lock)
    {
      if lock in exclusiveLocks && exclusiveLocks[lock] != client {
        reply := Text(GetReply(false, lock));
      } else {
        exclusiveLocks := exclusiveLocks[lock := client];
        reply := Text(GetReply(true, lock));
      }
    }

    /** `r`: release an exclusive lock. */
    method R(client: Holder, lock: string) returns (reply: Reply)
      modifies this`exclusiveLocks
      ensures reply == Text(ReleaseReply(ReleaseSucceeds(old(exclusiveLocks), client, lock), lock))
      ensures exclusiveLocks == AfterRelease(old(exclusiveLocks), client, lock)
    {
      if lock in exclusiveLocks && exclusiveLocks[lock] == client {
        exclusiveLocks := exclusiveLocks - {lock};
        reply := Text(ReleaseReply(true, lock));
      } else {
        reply := Text(ReleaseReply(false, lock));
      }
    }

    /** `i`: inspect an exclusive lock; locked iff somebody holds it. */
    method I(client: Holder, lock: string) returns (reply: Reply)
      ensures reply == Text(InspectReply(lock in exclusiveLocks, lock))
    {
      if lock in exclusiveLocks {
        reply := Text(InspectReply(true, lock));
      } else {
        reply := Text(InspectReply(false, lock));
      }
    }

    /** `d`: dump one exclusive lock, or all of them for an empty argument. */
    method D(client: Holder, lock: string) returns (reply: Reply)
      ensures ExclusiveDumpReply(features, exclusiveLocks, registry, lock, reply)
    {
      if !features.dump {
        return Text(Disabled);
      }
      if lock != "" {
        if lock in exclusiveLocks {
          reply := Text(DumpLine(lock, ClientName(registry, exclusiveLocks[lock])));
        } else {
          reply := NoReply;
        }
      } else {
        var keys := exclusiveLocks.Keys;
        var lines: seq<string> := [];
        ghost var order: seq<string> := [];
        while keys != {}
          invariant keys <= exclusiveLocks.Keys
          invariant Enumerates(order, exclusiveLocks.Keys - keys)
          invariant lines == ExclusiveLines(exclusiveLocks, registry, order)
          decreases keys
        {
          var k :| k in keys;
          lines := lines + [DumpLine(k, ClientName(registry, exclusiveLocks[k]))];
          ghost var before := order;
          order := order + [k];
          assert order[..|order| - 1] == before;
          keys := keys - {k};
        }
        reply := Lines(lines);
      }
    }

    /** `sg`: join a shared lock; the reply carries the holder count. */
    method Sg(client: Holder, lock: string) returns (reply: Reply)
      modifies this`sharedLocks
      ensures sharedLocks == AfterSharedGet(old(sharedLocks), client, lock)
      ensures reply == Text(SharedGetReply(|sharedLocks[lock]|, lock))
    {
      if lock !in sharedLocks {
        sharedLocks := sharedLocks[lock := []];
      }
      if client !in sharedLocks[lock] {
        sharedLocks := sharedLocks[lock := sharedLocks[lock] + [client]];
      }
      reply := Text(SharedGetReply(|sharedLocks[lock]|, lock));
    }

    /** `sr`: leave a shared lock. */
    method Sr(client: Holder, lock: string) returns (reply: Reply)
      modifies this`sharedLocks
      ensures reply == Text(SharedReleaseReply(SharedReleaseSucceeds(old(sharedLocks), client, lock), lock))
      ensures sharedLocks == AfterSharedRelease(old(sharedLocks), client, lock)
    {
      var beforeRelease := if lock in sharedLocks then sharedLocks[lock] else [];
      var afterRelease := Without(beforeRelease, client);
      if |beforeRelease| == |afterRelease| {
        return Text(SharedReleaseReply(false, lock));
      }
      if afterRelease != [] {
        sharedLocks := sharedLocks[lock := afterRelease];
      } else {
        sharedLocks := sharedLocks - {lock};
      }
      reply := Text(SharedReleaseReply(true, lock));
    }

    /** `si`: inspect a shared lock on behalf of a client. */
    method Si(client: Holder, lock: string) returns (reply: Reply)
      ensures reply == Text(SharedInspectReply(
        if client in Holders(sharedLocks, lock) then Some(|sharedLocks[lock]|) else None, lock))
    {
      if lock !in sharedLocks || client !in sharedLocks[lock] {
        return Text(SharedInspectReply(None, lock));
      }
      reply := Text(SharedInspectReply(Some(|sharedLocks[lock]|), lock));
    }

    /** The `lock: holder` lines for one shared lock (`holders.map`). */
    method HolderLinesOf(lock: string, hs: seq<Holder>) returns (lines: seq<string>)
      ensures lines == HolderLines(registry, lock, hs)
    {
      lines := [];
      for j := 0 to |hs|
        invariant lines == HolderLines(registry, lock, hs[..j])
      {
        lines := lines + [DumpLine(lock, ClientName(registry, hs[j]))];
        assert hs[..j + 1][..j] == hs[..j];
      }
      assert hs[..|hs|] == hs;
    }

    /** `sd`: dump one shared lock, or all of them for an empty argument. */
    method Sd(client: Holder, lock: string) returns (reply: Reply)
      ensures SharedDumpReply(features, sharedLocks, registry, lock, reply)
    {
      if !features.dump {
        return Text(Disabled);
      }
      if lock != "" {
        if lock in sharedLocks {
          var lines := HolderLinesOf(lock, sharedLocks[lock]);
          reply := Lines(lines);
        } else {
          reply := NoReply;
        }
      } else {
        var keys := sharedLocks.Keys;
        var lines: seq<string> := [];
        ghost var order: seq<string> := [];
        while keys != {}
          invariant keys <= sharedLocks.Keys
          invariant Enumerates(order, sharedLocks.Keys - keys)
          invariant lines == SharedLines(sharedLocks, registry, order)
          decreases keys
        {
          var k :| k in keys;
          var holderLines := HolderLinesOf(k, sharedLocks[k]);
          lines := lines + holderLines;
          ghost var before := order;
          order := order + [k];
          assert order[..|order| - 1] == before;
          keys := keys - {k};
        }
        reply := Lines(lines);
      }
    }

    /** `dump`: the shared table for `shared`, the exclusive table otherwise. */
    method Dump(client: Holder, arg: string) returns (reply: Reply)
      ensures reply == DumpReply(features, exclusiveLocks, sharedLocks, arg)
    {
      if !features.dump {
        reply := Text(Disabled);
      } else if arg == "shared" {
        reply := Json(SharedTable(sharedLocks));
      } else {
        reply := Json(ExclusiveTable(exclusiveLocks));
      }
    }

    /** Runs the handler of a known command. */
    method Dispatch(client: Holder, cmd: string, arg: string) returns (reply: Reply)
      requires cmd in Commands
      requires SharedTableValid(sharedLocks)
      modifies this`exclusiveLocks, this`sharedLocks
      ensures SharedTableValid(sharedLocks)
      ensures Handled(features, registry, client, cmd, arg,
                      old(exclusiveLocks), old(sharedLocks), exclusiveLocks, sharedLocks, reply)
    {
      if cmd == "g" {
        reply := G(client, arg);
      } else if cmd == "r" {
        reply := R(client, arg);
      } else if cmd == "i" {
        reply := I(client, arg);
      } else if cmd == "d" {
        reply := D(client, arg);
      } else if cmd == "sg" {
        SharedGetCount(sharedLocks, client, arg);
        reply := Sg(client, arg);
      } else if cmd == "sr" {
        SharedReleaseValid(sharedLocks, client, arg);
        reply := Sr(client, arg);
      } else if cmd == "si" {
        reply := Si(client, arg);
      } else if cmd == "sd" {
        reply := Sd(client, arg);
      } else {
        reply := Dump(client, arg);
      }
    }

    /**
     * `receive`: split the line, count it, run the command and frame its reply.
     * An unknown command only bumps `invalid_commands` and sends nothing.
     */
    method Receive(client: Holder, line: string) returns (out: Outgoing, ghost reply: Reply)
      requires Valid()
      modifies this`exclusiveLocks, this`sharedLocks, this`stats
      ensures Valid()
      ensures CommandOf(line) !in Commands ==>
        && out == Silent
        && stats == Add(old(stats), "invalid_commands", 1)
        && exclusiveLocks == old(exclusiveLocks) && sharedLocks == old(sharedLocks)
      ensures CommandOf(line) in Commands ==>
        && stats == Bump(old(stats), "command_" + CommandOf(line))
        && out == Frame(reply)
        && Handled(features, registry, client, CommandOf(line), ArgumentOf(line),
                   old(exclusiveLocks), old(sharedLocks), exclusiveLocks, sharedLocks, reply)
    {
      var (cmd, rest) := Utils.SplitAtFirstSpace(line);
      var arg := if rest.Some? then rest.value else "";
      if cmd !in Commands {
        stats := stats["invalid_commands" := stats["invalid_commands"] + 1];
        return Silent, NoReply;
      }
      stats := Bump(stats, "command_" + cmd);
      var response := Dispatch(client, cmd, arg);
      reply := response;
      match response
      case NoReply => out := Silent;
      case Text(s) => out := Write(s + "\n");
      case Lines(ls) => out := Write(Join(ls, "\n") + "\n");
      case Json(snapshot) => out := WriteJson(snapshot);
    }

    /**
     * `disconnect`: release the client's exclusive locks (one orphan each), take it
     * out of every shared list (one shared orphan per list), forget its registry
     * entry and count the connection as gone.
     */
    method Disconnect(client: Holder)
      requires Valid()
      modifies this`exclusiveLocks, this`sharedLocks, this`registry, this`stats
      ensures Valid()
      ensures exclusiveLocks == ReleaseAll(old(exclusiveLocks), client)
      ensures sharedLocks == SharedReleaseAll(old(sharedLocks), client)
      ensures registry == old(registry) - {client}
      ensures stats == old(stats)
        ["orphans" := old(stats)["orphans"] + |HeldBy(old(exclusiveLocks), client)|]
        ["shared_orphans" := old(stats)["shared_orphans"] + |SharedHeldBy(old(sharedLocks), client)|]
        ["connections" := old(stats)["connections"] - 1]
    {
      var orphans := ReleaseExclusiveOf(client);
      stats := stats["orphans" := stats["orphans"] + orphans];
      var sharedOrphans := ReleaseSharedOf(client);
      stats := stats["shared_orphans" := stats["shared_orphans"] + sharedOrphans];
      registry := registry - {client};
      stats := stats["connections" := stats["connections"] - 1];
    }

    /**
     * The first loop of `disconnect`: every exclusive lock the client holds goes,
     * counting the locks released (`disconnect` adds them to `orphans`).
     */
    method ReleaseExclusiveOf(client: Holder) returns (orphans: nat)
      modifies this`exclusiveLocks
      ensures exclusiveLocks == ReleaseAll(old(exclusiveLocks), client)
      ensures orphans == |HeldBy(old(exclusiveLocks), client)|
    {
      ghost var ex0 := exclusiveLocks;
      var keys := exclusiveLocks.Keys;
      orphans := 0;
      ghost var done: set<string> := {};
      while keys != {}
        invariant keys !! done && keys + done == ex0.Keys
        invariant exclusiveLocks == ReleasedIn(ex0, client, done)
        invariant orphans == |HeldIn(ex0, client, done)|
        decreases keys
      {
        var k :| k in keys;
        ReleaseStep(ex0, client, done, k);
        if exclusiveLocks[k] == client {
          exclusiveLocks := exclusiveLocks - {k};
          orphans := orphans + 1;
        }
        keys := keys - {k};
        done := done + {k};
      }
      ReleasedInAll(ex0, client, done);
    }

    /**
     * The second loop of `disconnect`: the client leaves every shared list, one
     * count per list it was in (`disconnect` adds them to `shared_orphans`).
     */
    method ReleaseSharedOf(client: Holder) returns (orphans: nat)
      requires SharedTableValid(sharedLocks)
      modifies this`sharedLocks
      ensures SharedTableValid(sharedLocks)
      ensures sharedLocks == SharedReleaseAll(old(sharedLocks), client)
      ensures orphans == |SharedHeldBy(old(sharedLocks), client)|
    {
      ghost var sh0 := sharedLocks;
      var keys := sharedLocks.Keys;
      orphans := 0;
      ghost var done: set<string> := {};
      while keys != {}
        invariant keys !! done && keys + done == sh0.Keys
        invariant sharedLocks == SharedReleasedIn(sh0, client, done)
        invariant orphans == |SharedHeldIn(sh0, client, done)|
        decreases keys
      {
        var k :| k in keys;
        SharedReleaseStep(sh0, client, done, k);
        var beforeRelease := sharedLocks[k];
        var afterRelease := Without(beforeRelease, client);
        if |beforeRelease| != |afterRelease| {
          if afterRelease != [] {
            sharedLocks := sharedLocks[k := afterRelease];
          } else {
            sharedLocks := sharedLocks - {k};
          }
          orphans := orphans + 1;
        }
        keys := keys - {k};
        done := done + {k};
      }
      SharedReleasedInAll(sh0, client, done);
      SharedReleaseAllExact(sh0, client);
    }
  }
}
