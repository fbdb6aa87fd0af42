/**
 * The wire between the lockd client and the lockd server: the request a
 * client method sends is the command line the server dispatches on, and the
 * reply the server writes decodes, on the client, to what the server meant.
 */
module Protocol {
  import opened Wrappers
  import Utils
  import Server
  import Client

  // ---------------------------------------------------------------------
  // Requests
  // ---------------------------------------------------------------------

  /** A simple method's request is one line naming its command, with the object name as the argument. */
  lemma SimpleRequestLine(m: Client.SimpleMethod, objName: string)
    ensures var line := Client.Command(m) + " " + objName;
      && Client.SimpleTask(m, objName).msg == line + "\n"
      && Server.CommandOf(line) == Client.Command(m)
      && Server.ArgumentOf(line) == objName
      && Client.Command(m) in Server.Commands
  {
    Server.CommandAndArgument(Client.Command(m), objName);
  }

  /** A dump request reaches `d` or `sd`; a missing or empty lock name arrives as the empty argument. */
  lemma DumpRequestLine(lockName: Option<string>, isShared: bool)
    ensures var msg := Client.DumpTask(lockName, isShared).msg;
      var line := msg[..|msg| - 1];
      && msg == line + "\n"
      && Server.CommandOf(line) == (if isShared then "sd" else "d")
      && Server.ArgumentOf(line) == (if Client.Truthy(lockName) then lockName.value else "")
  {
    var cmd := if isShared then "sd" else "d";
    var msg := Client.DumpTask(lockName, isShared).msg;
    Server.CommandAndArgument(cmd, if Client.Truthy(lockName) then lockName.value else "");
    if Client.Truthy(lockName) {
      assert msg == cmd + " " + lockName.value + "\n";
      assert msg[..|msg| - 1] == cmd + " " + lockName.value;
    } else {
      assert msg == cmd + "\n";
      assert msg[..|msg| - 1] == cmd;
    }
  }

  /**
   * `listClients` sends `who`, with the name as the argument only when the
   * name is truthy; `who` is not in the server's table.
   */
  lemma ListClientsRequestLine(clientName: Option<string>)
    ensures var msg := Client.ListClientsTask(clientName).msg;
      var line := msg[..|msg| - 1];
      && msg == line + "\n"
      && Server.CommandOf(line) == "who"
      && Server.ArgumentOf(line) == (if Client.Truthy(clientName) then clientName.value else "")
      && Server.CommandOf(line) !in Server.Commands
  {
    var msg := Client.ListClientsTask(clientName).msg;
    Server.CommandAndArgument("who", if Client.Truthy(clientName) then clientName.value else "");
    if Client.Truthy(clientName) {
      assert msg == "who" + " " + clientName.value + "\n";
      assert msg[..|msg| - 1] == "who" + " " + clientName.value;
    } else {
      assert msg == "who" + "\n";
      assert msg[..|msg| - 1] == "who";
    }
  }

  /** `getName` sends the single line `me`, which is not in the server's table. */
  lemma GetNameRequestLine()
    ensures Client.GetNameTask().msg == "me\n"
    ensures Server.CommandOf("me") == "me" && "me" !in Server.Commands
  {
    Server.CommandAndArgument("me", "");
  }

  /** `setName` sends `iam <name>`; `iam` is not in the server's table. */
  lemma SetNameRequestLine(clientName: string)
    ensures Client.SetNameTask(clientName).msg == "iam " + clientName + "\n"
    ensures var line := "iam " + clientName;
      && Server.CommandOf(line) == "iam" && "iam" !in Server.Commands
      && Server.ArgumentOf(line) == clientName
  {
    assert "iam " + clientName == "iam" + " " + clientName;
    Server.CommandAndArgument("iam", clientName);
  }

  /** `getStats` sends the single line `q`, which is not in the server's table. */
  lemma GetStatsRequestLine()
    ensures Client.GetStatsTask().msg == "q\n"
    ensures Server.CommandOf("q") == "q" && "q" !in Server.Commands
  {
    Server.CommandAndArgument("q", "");
  }

  /**
   * A request whose command is outside the server's table (`me`, `iam`,
   * `who` and `q` among them) is counted as invalid and never answered.
   */
  lemma UnservedRequest(cmd: string, arg: string)
    requires ' ' !in cmd && cmd !in Server.Commands
    ensures Server.CommandOf(cmd) !in Server.Commands
    ensures Server.CommandOf(cmd + " " + arg) !in Server.Commands
  {
    Server.CommandAndArgument(cmd, arg);
  }

  // ---------------------------------------------------------------------
  // Single-line replies
  // ---------------------------------------------------------------------

  /** The reply line `<0|1> <text>` as a simple method decodes it. */
  lemma FlagLine(m: Client.SimpleMethod, ok: bool, text: string)
    ensures Client.SimpleOutcome(m, Success([Server.Coded(Server.Flag(ok), text)])) ==
      if ok || Client.FailureIsError(m) == Some(false) then Client.Ok(Utils.Num(if ok then 1 else 0), Some(text))
      else Client.Fail(text)
  {
    var n := if ok then 1 else 0;
    assert Server.Flag(ok) == Utils.NatToString(n) by {
      assert Utils.NatToString(n) == [Utils.DigitChar(n)];
    }
    Client.ResponseLineOfCode(n, text, Client.FailureIsError(m));
  }

  /** `get` on `g`'s reply: success with code 1, or an Error naming the lock another client holds. */
  lemma GetDecoded(ok: bool, lock: string)
    ensures Client.SimpleOutcome(Client.Get, Success([Server.GetReply(ok, lock)])) ==
      if ok then Client.Ok(Utils.Num(1), Some("Lock Get Success: " + lock))
      else Client.Fail("Lock Get Failure: " + lock)
  {
    var text := (if ok then "Lock Get Success: " else "Lock Get Failure: ") + lock;
    FlagLine(Client.Get, ok, text);
  }

  /** `release` on `r`'s reply. */
  lemma ReleaseDecoded(ok: bool, lock: string)
    ensures Client.SimpleOutcome(Client.Release, Success([Server.ReleaseReply(ok, lock)])) ==
      if ok then Client.Ok(Utils.Num(1), Some("Lock Release Success: " + lock))
      else Client.Fail("Lock Release Failure: " + lock)
  {
    var text := (if ok then "Lock Release Success: " else "Lock Release Failure: ") + lock;
    FlagLine(Client.Release, ok, text);
  }

  /** `inspect` on `i`'s reply: never an Error; the code says whether the lock is held. */
  lemma InspectDecoded(locked: bool, lock: string)
    ensures Client.SimpleOutcome(Client.Inspect, Success([Server.InspectReply(locked, lock)])) ==
      Client.Ok(Utils.Num(if locked then 1 else 0),
                Some((if locked then "Lock Is Locked: " else "Lock Not Locked: ") + lock))
  {
    var text := (if locked then "Lock Is Locked: " else "Lock Not Locked: ") + lock;
    FlagLine(Client.Inspect, locked, text);
  }

  /** `getShared` on `sg`'s reply: the code is the holder count. */
  lemma SharedGetDecoded(count: nat, lock: string)
    ensures Client.SimpleOutcome(Client.GetShared, Success([Server.SharedGetReply(count, lock)])) ==
      if count != 0 then Client.Ok(Utils.Num(count), Some("Shared Lock Get Success: " + lock))
      else Client.Fail("Shared Lock Get Success: " + lock)
  {
    var text := "Shared Lock Get Success: " + lock;
    Client.ResponseLineOfCode(count, text, None);
  }

  /** `releaseShared` on `sr`'s reply. */
  lemma SharedReleaseDecoded(ok: bool, lock: string)
    ensures Client.SimpleOutcome(Client.ReleaseShared, Success([Server.SharedReleaseReply(ok, lock)])) ==
      if ok then Client.Ok(Utils.Num(1), Some("Shared Lock Release Success: " + lock))
      else Client.Fail("Shared Lock Release Failure: " + lock)
  {
    var text := (if ok then "Shared Lock Release Success: " else "Shared Lock Release Failure: ") + lock;
    FlagLine(Client.ReleaseShared, ok, text);
  }

  /** `inspectShared` on `si`'s reply for a holder: the code is the holder count. */
  lemma SharedInspectHeldDecoded(count: nat, lock: string)
    ensures Client.SimpleOutcome(Client.InspectShared, Success([Server.SharedInspectReply(Some(count), lock)])) ==
      Client.Ok(Utils.Num(count), Some("Shared Lock Is Locked: " + lock))
  {
    var text := "Shared Lock Is Locked: " + lock;
    Client.ResponseLineOfCode(count, text, Some(false));
  }

  /** `inspectShared` on `si`'s reply for a non-holder: code 0, and still no Error. */
  lemma SharedInspectFreeDecoded(lock: string)
    ensures Client.SimpleOutcome(Client.InspectShared, Success([Server.SharedInspectReply(None, lock)])) ==
      Client.Ok(Utils.Num(0), Some("Shared Lock Not Locked: " + lock))
  {
    var text := "Shared Lock Not Locked: " + lock;
    FlagLine(Client.InspectShared, false, text);
  }

  /** A client whose `g` the server refuses is told so by an Error from `get`. */
  lemma GetOverWire(features: Server.Features, registry: map<Server.Holder, string>, client: Server.Holder, lock: string,
                    ex: map<string, Server.Holder>, sh: map<string, seq<Server.Holder>>,
                    ex': map<string, Server.Holder>, sh': map<string, seq<Server.Holder>>, reply: Server.Reply)
    requires Server.Handled(features, registry, client, "g", lock, ex, sh, ex', sh', reply)
    ensures reply.Text? && Server.Frame(reply) == Server.Write(reply.line + "\n")
    ensures Client.SimpleOutcome(Client.Get, Success([reply.line])).Ok? <==> ex'[lock] == client
  {
    GetDecoded(Server.GetSucceeds(ex, client, lock), lock);
  }

  // ---------------------------------------------------------------------
  // Framing of multi-line replies
  // ---------------------------------------------------------------------

  /** Each line followed by a newline. */
  function Terminated(ls: seq<string>): string
    decreases |ls|
  {
    if ls == [] then "" else ls[0] + "\n" + Terminated(ls[1..])
  }

  /**
   * An array reply is sent as its lines, each ending in a newline; an empty
   * array is sent as a single blank line, which the transport skips.
   */
  lemma {:induction false} FramedLines(ls: seq<string>)
    ensures Server.Frame(Server.Lines(ls)) == Server.Write(if ls == [] then "\n" else Terminated(ls))
    decreases |ls|
  {
    if |ls| > 1 {
      FramedLines(ls[1..]);
      assert Server.Join(ls, "\n") + "\n" == ls[0] + "\n" + (Server.Join(ls[1..], "\n") + "\n");
    }
  }

  // ---------------------------------------------------------------------
  // Dumps
  // ---------------------------------------------------------------------

  /** No dump line is the `0 disabled` line a dump reads up to. */
  lemma DumpLineNotDisabled(lock: string, name: string)
    ensures Server.DumpLine(lock, name) != Server.Disabled
  {
    var line := Server.DumpLine(lock, name);
    assert line[|lock|] == ':';
    assert ':' !in Server.Disabled;
  }

  /** A dump line whose lock name has no `': '` splits back into the lock and the holder's name. */
  lemma DumpLineEntry(lock: string, name: string)
    requires Client.NoSeparator(lock)
    ensures Client.SplitEntry(Server.DumpLine(lock, name)) == (lock, name)
  {
    assert Server.DumpLine(lock, name) == lock + Client.Separator + name;
    Client.SplitEntryRoundTrip(lock, name);
  }

  /** The entries of a full `d`'s lines are the listed locks and their holders' display names. */
  lemma ExclusiveLinesEntries(ex: map<string, Server.Holder>, registry: map<Server.Holder, string>, order: seq<string>)
    requires forall k :: k in order ==> k in ex && Client.NoSeparator(k)
    ensures var lines := Server.ExclusiveLines(ex, registry, order);
      forall i :: 0 <= i < |lines| ==>
        Client.ExclusiveEntry(lines[i]) == (order[i], Server.ClientName(registry, ex[order[i]]))
  {
    var lines := Server.ExclusiveLines(ex, registry, order);
    forall i | 0 <= i < |lines|
      ensures Client.ExclusiveEntry(lines[i]) == (order[i], Server.ClientName(registry, ex[order[i]]))
    {
      DumpLineEntry(order[i], Server.ClientName(registry, ex[order[i]]));
    }
  }

  /** A listed lock's entry is its holder's display name: no later line names it again. */
  lemma ExclusiveDumpValue(ex: map<string, Server.Holder>, registry: map<Server.Holder, string>, order: seq<string>, i: nat)
    requires forall k :: k in order ==> k in ex && Client.NoSeparator(k)
    requires forall i, j :: 0 <= i < j < |order| ==> order[i] != order[j]
    requires i < |order|
    ensures var locks := Client.LastWins(Server.ExclusiveLines(ex, registry, order), Client.ExclusiveEntry);
      order[i] in locks && locks[order[i]] == Server.ClientName(registry, ex[order[i]])
  {
    ExclusiveLinesEntries(ex, registry, order);
    Client.LastWinsValue(Server.ExclusiveLines(ex, registry, order), Client.ExclusiveEntry, i);
  }

  /** The locks a full `d` decodes to are the listed ones. */
  lemma ExclusiveDumpKeys(ex: map<string, Server.Holder>, registry: map<Server.Holder, string>, order: seq<string>)
    requires forall k :: k in order ==> k in ex && Client.NoSeparator(k)
    ensures forall k :: k in Client.LastWins(Server.ExclusiveLines(ex, registry, order), Client.ExclusiveEntry) ==> k in order
  {
    var lines := Server.ExclusiveLines(ex, registry, order);
    ExclusiveLinesEntries(ex, registry, order);
    Client.LastWinsKeys(lines, Client.ExclusiveEntry);
  }

  /**
   * A full `d` decodes, on the client, to every exclusive lock and its
   * holder's display name, whatever order the server listed the locks in.
   */
  lemma ExclusiveDumpDecoded(ex: map<string, Server.Holder>, registry: map<Server.Holder, string>, order: seq<string>)
    requires Server.Enumerates(order, ex.Keys)
    requires forall k :: k in ex ==> Client.NoSeparator(k)
    ensures var locks := Client.LastWins(Server.ExclusiveLines(ex, registry, order), Client.ExclusiveEntry);
      && locks.Keys == ex.Keys
      && forall k :: k in ex ==> locks[k] == Server.ClientName(registry, ex[k])
  {
    var locks := Client.LastWins(Server.ExclusiveLines(ex, registry, order), Client.ExclusiveEntry);
    forall k | k in ex ensures k in locks && locks[k] == Server.ClientName(registry, ex[k]) {
      var i :| 0 <= i < |order| && order[i] == k;
      ExclusiveDumpValue(ex, registry, order, i);
    }
    forall k | k in locks ensures k in ex {
      ExclusiveDumpKeys(ex, registry, order);
    }
    assert locks.Keys == ex.Keys;
  }

  /** A full `d` is never taken for the dump-disabled reply. */
  lemma ExclusiveLinesNotDisabled(ex: map<string, Server.Holder>, registry: map<Server.Holder, string>, order: seq<string>)
    requires forall k :: k in order ==> k in ex
    ensures Server.ExclusiveLines(ex, registry, order) != [Server.Disabled]
  {
    var lines := Server.ExclusiveLines(ex, registry, order);
    if |lines| == 1 {
      DumpLineNotDisabled(order[0], Server.ClientName(registry, ex[order[0]]));
    }
  }

  /** A filtered `d` of a held lock decodes to the holder's display name, which is never null. */
  lemma ExclusiveFilteredDecoded(registry: map<Server.Holder, string>, lock: string, holder: Server.Holder)
    requires Client.NoSeparator(lock)
    ensures var line := Server.DumpLine(lock, Server.ClientName(registry, holder));
      var locks := Client.LastWins([line], Client.ExclusiveEntry);
      && [line] != [Server.Disabled]
      && lock in locks && locks[lock] == Server.ClientName(registry, holder) && locks[lock] != ""
  {
    var name := Server.ClientName(registry, holder);
    DumpLineEntry(lock, name);
    DumpLineNotDisabled(lock, name);
    assert [Server.DumpLine(lock, name)][..0] == [];
  }

  /** The display names of a list of holders. */
  function Names(registry: map<Server.Holder, string>, hs: seq<Server.Holder>): (ns: seq<string>)
    ensures |ns| == |hs|
    ensures forall i :: 0 <= i < |hs| ==> ns[i] == Server.ClientName(registry, hs[i])
    decreases |hs|
  {
    if hs == [] then [] else Names(registry, hs[..|hs| - 1]) + [Server.ClientName(registry, hs[|hs| - 1])]
  }

  lemma {:induction false} HoldersNamedAppend(a: seq<string>, b: seq<string>, name: string)
    ensures Client.HoldersNamed(a + b, name) == Client.HoldersNamed(a, name) + Client.HoldersNamed(b, name)
    decreases |b|
  {
    if b != [] {
      var init := b[..|b| - 1];
      assert (a + b)[..|a + b| - 1] == a + init;
      assert (a + b)[|a + b| - 1] == b[|b| - 1];
      HoldersNamedAppend(a, init, name);
    } else {
      assert a + b == a;
    }
  }

  /** The lines of one shared lock name only that lock, in holder order. */
  lemma {:induction false} HoldersNamedOfHolderLines(registry: map<Server.Holder, string>, lock: string,
                                                     hs: seq<Server.Holder>, name: string)
    requires Client.NoSeparator(lock)
    ensures Client.HoldersNamed(Server.HolderLines(registry, lock, hs), name) ==
      if name == lock then Names(registry, hs) else []
    decreases |hs|
  {
    if hs != [] {
      var ls := Server.HolderLines(registry, lock, hs);
      assert ls[..|ls| - 1] == Server.HolderLines(registry, lock, hs[..|hs| - 1]);
      DumpLineEntry(lock, Server.ClientName(registry, hs[|hs| - 1]));
      HoldersNamedOfHolderLines(registry, lock, hs[..|hs| - 1], name);
    }
  }

  /** In a full `sd`, the lines naming a lock are that lock's holders, in list order. */
  lemma {:induction false} HoldersNamedOfSharedLines(sh: map<string, seq<Server.Holder>>,
                                                     registry: map<Server.Holder, string>,
                                                     order: seq<string>, name: string)
    requires forall k :: k in order ==> k in sh && Client.NoSeparator(k)
    requires forall i, j :: 0 <= i < j < |order| ==> order[i] != order[j]
    ensures Client.HoldersNamed(Server.SharedLines(sh, registry, order), name) ==
      if name in order then Names(registry, sh[name]) else []
    decreases |order|
  {
    if order != [] {
      var init, last := order[..|order| - 1], order[|order| - 1];
      assert forall k :: k in init ==> k in order;
      assert name == last ==> name !in init;
      assert name in order <==> name in init || name == last;
      HoldersNamedOfSharedLines(sh, registry, init, name);
      HoldersNamedAppend(Server.SharedLines(sh, registry, init), Server.HolderLines(registry, last, sh[last]), name);
      HoldersNamedOfHolderLines(registry, last, sh[last], name);
    }
  }

  /** One name of a full `sd`: present on the client exactly when it holds a lock, with its holders' names. */
  lemma SharedDumpName(sh: map<string, seq<Server.Holder>>, registry: map<Server.Holder, string>, order: seq<string>,
                       name: string)
    requires Server.SharedTableValid(sh)
    requires Server.Enumerates(order, sh.Keys)
    requires forall k :: k in sh ==> Client.NoSeparator(k)
    ensures var locks := Client.SharedEntries(Server.SharedLines(sh, registry, order));
      && (name in locks <==> name in sh)
      && (name in sh ==> locks[name] == Names(registry, sh[name]))
  {
    var lines := Server.SharedLines(sh, registry, order);
    Client.SharedInLineOrder(lines, name);
    HoldersNamedOfSharedLines(sh, registry, order, name);
  }

  /**
   * A full `sd` decodes, on the client, to every shared lock and its holders'
   * display names in the order the server keeps them.
   */
  lemma SharedDumpDecoded(sh: map<string, seq<Server.Holder>>, registry: map<Server.Holder, string>, order: seq<string>)
    requires Server.SharedTableValid(sh)
    requires Server.Enumerates(order, sh.Keys)
    requires forall k :: k in sh ==> Client.NoSeparator(k)
    ensures var locks := Client.SharedEntries(Server.SharedLines(sh, registry, order));
      && locks.Keys == sh.Keys
      && forall k :: k in sh ==> locks[k] == Names(registry, sh[k])
  {
    forall name {
      SharedDumpName(sh, registry, order, name);
    }
  }

  /** A filtered `sd` of a lock decodes to its holders' display names, in list order. */
  lemma SharedFilteredDecoded(registry: map<Server.Holder, string>, lock: string, hs: seq<Server.Holder>)
    requires Client.NoSeparator(lock)
    requires hs != []
    ensures var lines := Server.HolderLines(registry, lock, hs);
      var locks := Client.SharedEntries(lines);
      && lines != [Server.Disabled]
      && lock in locks && locks[lock] == Names(registry, hs)
  {
    var lines := Server.HolderLines(registry, lock, hs);
    Client.SharedInLineOrder(lines, lock);
    HoldersNamedOfHolderLines(registry, lock, hs, lock);
    DumpLineNotDisabled(lock, Server.ClientName(registry, hs[0]));
  }
}
