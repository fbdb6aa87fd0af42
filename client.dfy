/**
 * The lockd client's request strings and response decoders (client/index.js).
 * Each operation is a task for the transport (the message and the lines it
 * reads back) and a decoder from the transport's response to what the
 * operation's callback receives.
 */
module Client {
  import opened Wrappers
  import Utils
  import Socket

  // ---------------------------------------------------------------------
  // JavaScript string helpers
  // ---------------------------------------------------------------------

  /** A name argument is truthy when it is present and not the empty string. */
  predicate Truthy(s: Option<string>) {
    s.Some? && s.value != ""
  }

  /** A `substring` bound: negative ones become 0, ones past the end become the length. */
  function Clamp(i: int, len: nat): (r: nat)
    ensures r <= len
    ensures 0 <= i <= len ==> r == i
    ensures i < 0 ==> r == 0
    ensures i > len ==> r == len
  {
    if i < 0 then 0 else if i > len then len else i
  }

  /** `String.prototype.substring(start, end)`: both ends clamped, swapped when reversed. */
  function Substring(s: string, start: int, end: int): (r: string)
    ensures |r| <= |s|
    ensures 0 <= start <= end <= |s| ==> r == s[start..end]
    ensures 0 <= end <= start <= |s| ==> r == s[end..start]
  {
    var a, b := Clamp(start, |s|), Clamp(end, |s|);
    if a <= b then s[a..b] else s[b..a]
  }

  /** `substring` does not care which bound comes first. */
  lemma SubstringSwap(s: string, start: int, end: int)
    ensures Substring(s, start, end) == Substring(s, end, start)
  {
  }

  /** `String.prototype.substring(start)`. */
  function SubstringFrom(s: string, start: int): string {
    Substring(s, start, |s|)
  }

  /** The separator between a name and its value in dump, client and stats lines. */
  const Separator: string := ": "

  /** `s` contains no `': '`. */
  predicate NoSeparator(s: string) {
    forall j :: 0 <= j < |s| ==> !Utils.OccursAt(s, Separator, j)
  }

  /**
   * A `name: value` line split at its first `': '`. A line without one has
   * `indexOf` -1, so the name is empty and the value is the line minus its
   * first character.
   */
  function SplitEntry(line: string): (r: (string, string))
    ensures NoSeparator(r.0)
  {
    assert |Separator| == 2;
    var pos := Utils.IndexOf(line, Separator);
    var name := Substring(line, 0, pos);
    var value := SubstringFrom(line, pos + 2);
    assert NoSeparator(name) by {
      if pos >= 0 {
        assert name == line[..pos];
        forall j | 0 <= j < |name| ensures !Utils.OccursAt(name, Separator, j) {
          if j + 2 <= |name| {
            assert name[j..j + 2] == line[j..j + 2];
            assert !Utils.OccursAt(line, Separator, j);
          }
        }
      }
    }
    (name, value)
  }

  /** A name free of `': '` and any value, joined by `': '`, split back into the two. */
  lemma SplitEntryRoundTrip(name: string, value: string)
    requires NoSeparator(name)
    ensures SplitEntry(name + Separator + value) == (name, value)
  {
    var line := name + Separator + value;
    assert |Separator| == 2 && Separator[0] == ':' && Separator[1] == ' ';
    assert Utils.OccursAt(line, Separator, |name|) by {
      assert line[|name|..|name| + 2] == Separator;
    }
    forall j | 0 <= j < |name|
      ensures !Utils.OccursAt(line, Separator, j)
    {
      if j + 2 <= |name| {
        assert line[j..j + 2] == name[j..j + 2];
        assert !Utils.OccursAt(name, Separator, j);
      } else {
        assert line[j + 1] == ':';
      }
    }
    var pos := Utils.IndexOf(line, Separator);
    assert pos == |name|;
    assert Substring(line, 0, pos) == line[..|name|] == name;
    assert |name| + 2 <= |line|;
    assert SubstringFrom(line, pos + 2) == Substring(line, |name| + 2, |line|) == line[|name| + 2..|line|];
    assert line[|name| + 2..|line|] == value;
  }

  /**
   * A name containing `': '` is not recovered from `name: value`: the first
   * separator inside the name is taken, and the rest of the name moves into
   * the value.
   */
  lemma SplitEntryAmbiguous(name: string, value: string)
    requires !NoSeparator(name)
    ensures SplitEntry(name + Separator + value) != (name, value)
    ensures var p := Utils.IndexOf(name, Separator);
      0 <= p && p + 2 <= |name| &&
      SplitEntry(name + Separator + value) == (name[..p], name[p + 2..] + Separator + value)
  {
    var line := name + Separator + value;
    assert |Separator| == 2;
    var p := Utils.IndexOf(name, Separator);
    var w :| 0 <= w < |name| && Utils.OccursAt(name, Separator, w);
    assert 0 <= p <= w;
    assert Utils.OccursAt(line, Separator, p) by {
      assert line[p..p + 2] == name[p..p + 2];
    }
    forall j | 0 <= j < p
      ensures !Utils.OccursAt(line, Separator, j)
    {
      assert line[j..j + 2] == name[j..j + 2];
      assert !Utils.OccursAt(name, Separator, j);
    }
    assert Utils.IndexOf(line, Separator) == p;
    assert Substring(line, 0, p) == line[..p] == name[..p];
    assert SubstringFrom(line, p + 2) == line[p + 2..|line|];
    assert line[p + 2..|line|] == name[p + 2..] + Separator + value;
    assert |name[..p]| < |name|;
  }

  // ---------------------------------------------------------------------
  // Single-line responses
  // ---------------------------------------------------------------------

  /** What a simple method's callback receives: `(code, message)` or an Error. */
  datatype Outcome = Ok(code: Utils.Num, message: Option<string>) | Fail(error: string)

  /**
   * `_processResponseLine`: a transport error passes through; otherwise the
   * line is `code message`, and the call succeeds when the code is non-zero or
   * `failureIsError` is given and false. The Error's message is the text after
   * the code (`new Error(null)` reads "null").
   */
  function ProcessResponseLine(err: Option<string>, line: string, failureIsError: Option<bool>): (o: Outcome)
    ensures err.Some? ==> o == Fail(err.value)
    ensures err.None? ==>
      var (code, rest) := Utils.SplitAtFirstSpaceNumber(line);
      && (o.Ok? <==> Utils.IsNonZero(code) || failureIsError == Some(false))
      && (o.Ok? ==> o == Ok(code, rest))
      && (o.Fail? ==> o.error == rest.GetOr("null"))
  {
    if err.Some? then Fail(err.value)
    else
      var (code, rest) := Utils.SplitAtFirstSpaceNumber(line);
      if Utils.IsNonZero(code) || (failureIsError.Some? && !failureIsError.value) then Ok(code, rest)
      else Fail(if rest.Some? then rest.value else "null")
  }

  /** A line `<n> <text>`: a non-zero code succeeds; code 0 fails with the text unless failures are allowed. */
  lemma ResponseLineOfCode(n: nat, text: string, failureIsError: Option<bool>)
    ensures ProcessResponseLine(None, Utils.NatToString(n) + " " + text, failureIsError) ==
      if n != 0 || failureIsError == Some(false) then Ok(Utils.Num(n), Some(text)) else Fail(text)
  {
    var digits := Utils.NatToString(n);
    assert ' ' !in digits by {
      assert forall k :: 0 <= k < |digits| ==> Utils.IsDigit(digits[k]);
    }
    Utils.SplitRoundTrip(digits, text);
    Utils.ToNumberOfNat(n);
  }

  /** The methods made by `addSimpleMethod`. */
  datatype SimpleMethod = Get | Release | Inspect | GetShared | ReleaseShared | InspectShared

  function Command(m: SimpleMethod): string {
    match m
    case Get => "g"
    case Release => "r"
    case Inspect => "i"
    case GetShared => "sg"
    case ReleaseShared => "sr"
    case InspectShared => "si"
  }

  /** Only the inspect methods pass `failureIsError` (false); the others leave it undefined. */
  function FailureIsError(m: SimpleMethod): Option<bool> {
    if m == Inspect || m == InspectShared then Some(false) else None
  }

  /** `util.format('<cmd> %s\n', objName)`, read back as one line. */
  function SimpleTask(m: SimpleMethod, objName: string): (t: Socket.Task)
    ensures t.want == Socket.Count(1)
    ensures t.msg == Command(m) + " " + objName + "\n"
  {
    Socket.Task(Command(m) + " " + objName + "\n", Socket.Count(1))
  }

  /** The simple method's callback on the transport's response: `lines && lines[0]`. */
  function SimpleOutcome(m: SimpleMethod, response: Socket.Response): (o: Outcome)
    requires response.Success? ==> response.value != []
    ensures response.Failure? ==> o == Fail(response.error)
    ensures response.Success? ==> o == ProcessResponseLine(None, response.value[0], FailureIsError(m))
  {
    match response
    case Failure(e) => ProcessResponseLine(Some(e), "", FailureIsError(m))
    case Success(lines) => ProcessResponseLine(None, lines[0], FailureIsError(m))
  }

  /** The inspect methods never fail on a reply: a `0 …` line is `(0, message)`. */
  lemma InspectNeverFails(m: SimpleMethod, line: string)
    requires m == Inspect || m == InspectShared
    ensures SimpleOutcome(m, Success([line])).Ok?
  {
  }

  /** The other simple methods turn a `0 …` line into an Error carrying the text. */
  lemma ZeroIsError(m: SimpleMethod, text: string)
    requires m != Inspect && m != InspectShared
    ensures SimpleOutcome(m, Success(["0 " + text])) == Fail(text)
  {
    assert Utils.NatToString(0) == [Utils.DigitChar(0)] == "0";
    assert "0 " + text == Utils.NatToString(0) + " " + text;
    ResponseLineOfCode(0, text, FailureIsError(m));
  }

  // ---------------------------------------------------------------------
  // getName and setName
  // ---------------------------------------------------------------------

  const RegistryDisabled: string := "The registry feature of the lockd server is disabled."
  const BadResponse: string := "Bad response from lockd server"

  function GetNameTask(): Socket.Task {
    Socket.Task("me\n", Socket.Count(1))
  }

  /** What `getName`'s callback receives, or the TypeError thrown on `splitAtFirstSpace(null)`. */
  datatype NameOutcome = Named(addr: string, name: Option<string>) | NameFail(message: string) | Throws

  /** `getName`'s callback: `1 <addr> <name>`; a zero or non-numeric code is an Error. */
  function GetNameOutcome(response: Socket.Response): (o: NameOutcome)
    requires response.Success? ==> response.value != []
    ensures response.Failure? ==> o == NameFail(response.error)
    ensures response.Success? ==>
      var (code, rest) := Utils.SplitAtFirstSpaceNumber(response.value[0]);
      && (!Utils.IsNonZero(code) ==> o == NameFail(if rest.Some? && rest.value != "" then rest.value else BadResponse))
      && (Utils.IsNonZero(code) && rest.None? ==> o.Throws?)
      && (Utils.IsNonZero(code) && rest.Some? ==>
            o == Named(Utils.SplitAtFirstSpace(rest.value).0, Utils.SplitAtFirstSpace(rest.value).1))
  {
    match response
    case Failure(e) => NameFail(e)
    case Success(lines) =>
      var (code, rest) := Utils.SplitAtFirstSpaceNumber(lines[0]);
      if !Utils.IsNonZero(code) then NameFail(if rest.Some? && rest.value != "" then rest.value else BadResponse)
      else if rest.None? then Throws
      else
        var (addr, name) := Utils.SplitAtFirstSpace(rest.value);
        Named(addr, name)
  }

  /** `1 <addr> <name>` with a space-free address decodes to the address and the name. */
  lemma GetNameRoundTrip(addr: string, name: string)
    requires ' ' !in addr
    ensures GetNameOutcome(Success(["1 " + addr + " " + name])) == Named(addr, Some(name))
  {
    assert "1 " + addr + " " + name == "1" + " " + (addr + " " + name);
    Utils.SplitRoundTrip("1", addr + " " + name);
    Utils.SplitRoundTrip(addr, name);
    assert Utils.DecimalValue("1") == 1 by {
      assert "1"[..0] == "";
    }
  }

  function SetNameTask(clientName: string): Socket.Task {
    Socket.Task("iam " + clientName + "\n", Socket.Count(1))
  }

  /** `setName`'s callback: the bare `0 disabled` means the registry is off; otherwise failures are Errors. */
  function SetNameOutcome(response: Socket.Response): (o: Outcome)
    requires response.Success? ==> response.value != []
    ensures response.Success? && response.value[0] == "0 disabled" ==> o == Fail(RegistryDisabled)
    ensures response.Failure? ==> o == Fail(response.error)
    ensures response.Success? && response.value[0] != "0 disabled" ==>
      o == ProcessResponseLine(None, response.value[0], Some(true))
  {
    if response.Success? && response.value[0] == "0 disabled" then Fail(RegistryDisabled)
    else match response
      case Failure(e) => ProcessResponseLine(Some(e), "", Some(true))
      case Success(lines) => ProcessResponseLine(None, lines[0], Some(true))
  }

  // ---------------------------------------------------------------------
  // Dumps, the client list and statistics: the entries a run of lines builds
  // ---------------------------------------------------------------------

  const Disabled: string := "0 disabled"
  const DumpDisabled: string := "The dump feature of the lockd server is disabled."
  const ListDisabled: string := "The dump and/or registry features of the lockd server are disabled."

  /** Lines folded into a dictionary by `dict[key] = value`, each line giving its key and value. */
  function LastWins<V>(lines: seq<string>, entry: string -> (string, V)): map<string, V>
    decreases |lines|
  {
    if lines == [] then map[]
    else
      var (key, value) := entry(lines[|lines| - 1]);
      LastWins(lines[..|lines| - 1], entry)[key := value]
  }

  /** The keys are exactly the keys the lines give. */
  lemma {:induction false} LastWinsKeys<V>(lines: seq<string>, entry: string -> (string, V))
    ensures LastWins(lines, entry).Keys == set i | 0 <= i < |lines| :: entry(lines[i]).0
    decreases |lines|
  {
    if lines != [] {
      var init := lines[..|lines| - 1];
      LastWinsKeys(init, entry);
      assert forall i :: 0 <= i < |init| ==> init[i] == lines[i];
      assert (set i | 0 <= i < |lines| :: entry(lines[i]).0)
          == (set i | 0 <= i < |init| :: entry(init[i]).0) + {entry(lines[|lines| - 1]).0};
    }
  }

  /** A key's value is the one given by the last line carrying that key. */
  lemma {:induction false} LastWinsValue<V>(lines: seq<string>, entry: string -> (string, V), i: nat)
    requires i < |lines|
    requires forall j :: i < j < |lines| ==> entry(lines[j]).0 != entry(lines[i]).0
    ensures entry(lines[i]).0 in LastWins(lines, entry)
    ensures LastWins(lines, entry)[entry(lines[i]).0] == entry(lines[i]).1
    decreases |lines|
  {
    if i < |lines| - 1 {
      var init := lines[..|lines| - 1];
      assert init[i] == lines[i];
      assert forall j :: i < j < |init| ==> init[j] == lines[j];
      LastWinsValue(init, entry, i);
    }
  }

  /** An exclusive dump line: `locks[name] = holder`. */
  function ExclusiveEntry(line: string): (string, string) {
    SplitEntry(line)
  }

  /** A client list line `addr: name`: `clients[name] = addr`. */
  function ClientEntry(line: string): (string, string) {
    var (addr, name) := SplitEntry(line);
    (name, addr)
  }

  /** A stats line: `stats[key] = +val`. */
  function StatEntry(line: string): (string, Utils.Num) {
    var (key, val) := SplitEntry(line);
    (key, Utils.ToNumber(val))
  }

  /** Shared dump lines folded into `(locks[name] = locks[name] || []).push(holder)`. */
  function SharedEntries(lines: seq<string>): map<string, seq<string>>
    decreases |lines|
  {
    if lines == [] then map[]
    else
      var (name, holder) := SplitEntry(lines[|lines| - 1]);
      var locks := SharedEntries(lines[..|lines| - 1]);
      locks[name := (if name in locks then locks[name] else []) + [holder]]
  }

  /** The holders of the lines naming `name`, in line order. */
  function HoldersNamed(lines: seq<string>, name: string): seq<string>
    decreases |lines|
  {
    if lines == [] then []
    else
      var (n, holder) := SplitEntry(lines[|lines| - 1]);
      HoldersNamed(lines[..|lines| - 1], name) + (if n == name then [holder] else [])
  }

  /** The shared entries hold, for each name, its holders in line order; names without lines are absent. */
  lemma {:induction false} SharedInLineOrder(lines: seq<string>, name: string)
    ensures name in SharedEntries(lines) <==> HoldersNamed(lines, name) != []
    ensures name in SharedEntries(lines) ==> SharedEntries(lines)[name] == HoldersNamed(lines, name)
    decreases |lines|
  {
    if lines != [] {
      SharedInLineOrder(lines[..|lines| - 1], name);
    }
  }

  // ---------------------------------------------------------------------
  // The decoders
  // ---------------------------------------------------------------------

  /** `d`/`sd`, with ` <name>` only for a truthy name; read until `0 disabled` or the timer. */
  function DumpTask(lockName: Option<string>, isShared: bool): (t: Socket.Task)
    ensures t.want == Socket.Terminator(Disabled)
  {
    Socket.Task((if isShared then "sd" else "d") + (if Truthy(lockName) then " " + lockName.value else "") + "\n",
                Socket.Terminator(Disabled))
  }

  /** What `dump`/`dumpShared` hand their callback. */
  datatype DumpOutcome =
    | DumpFail(message: string)
    | ExclusiveLocks(locks: map<string, string>)
    | SharedLocks(shared: map<string, seq<string>>)
    | LockHolder(holder: Option<string>)
    | LockHolders(holders: seq<string>)

  /**
   * `_dump`'s callback: a transport error passes through, the bare `0 disabled`
   * is the dump-disabled error; otherwise the lines are folded into `locks`,
   * and a filtered dump answers for its name (null, or [] when shared, if absent).
   */
  method DecodeDump(lockName: Option<string>, isShared: bool, response: Socket.Response) returns (o: DumpOutcome)
    ensures response.Failure? ==> o == DumpFail(response.error)
    ensures response == Success([Disabled]) ==> o == DumpFail(DumpDisabled)
    ensures response.Success? && response.value != [Disabled] ==>
      var lines := response.value;
      && (!isShared && !Truthy(lockName) ==> o == ExclusiveLocks(LastWins(lines, ExclusiveEntry)))
      && (isShared && !Truthy(lockName) ==> o == SharedLocks(SharedEntries(lines)))
      && (!isShared && Truthy(lockName) ==>
            var locks := LastWins(lines, ExclusiveEntry);
            o == LockHolder(if lockName.value in locks && locks[lockName.value] != "" then Some(locks[lockName.value]) else None))
      && (isShared && Truthy(lockName) ==>
            var locks := SharedEntries(lines);
            o == LockHolders(if lockName.value in locks then locks[lockName.value] else []))
  {
    if response.Failure? {
      return DumpFail(response.error);
    }
    var lines := response.value;
    if |lines| == 1 && lines[0] == Disabled {
      return DumpFail(DumpDisabled);
    }
    if isShared {
      var shared := SharedLocksOf(lines);
      o := if Truthy(lockName) then LockHolders(if lockName.value in shared then shared[lockName.value] else [])
           else SharedLocks(shared);
    } else {
      var exclusive := ExclusiveLocksOf(lines);
      o := if Truthy(lockName)
           then LockHolder(if lockName.value in exclusive && exclusive[lockName.value] != "" then Some(exclusive[lockName.value]) else None)
           else ExclusiveLocks(exclusive);
    }
  }

  /** `_dump`'s loop for an exclusive dump. */
  method ExclusiveLocksOf(lines: seq<string>) returns (locks: map<string, string>)
    ensures locks == LastWins(lines, ExclusiveEntry)
  {
    locks := map[];
    for i := 0 to |lines|
      invariant locks == LastWins(lines[..i], ExclusiveEntry)
    {
      var (name, holder) := SplitEntry(lines[i]);
      locks := locks[name := holder];
      assert lines[..i + 1][..i] == lines[..i];
    }
    assert lines[..|lines|] == lines;
  }

  /** `_dump`'s loop for a shared dump. */
  method SharedLocksOf(lines: seq<string>) returns (locks: map<string, seq<string>>)
    ensures locks == SharedEntries(lines)
  {
    locks := map[];
    for i := 0 to |lines|
      invariant locks == SharedEntries(lines[..i])
    {
      var (name, holder) := SplitEntry(lines[i]);
      locks := locks[name := (if name in locks then locks[name] else []) + [holder]];
      assert lines[..i + 1][..i] == lines[..i];
    }
    assert lines[..|lines|] == lines;
  }

  /** `who`, with ` <name>` only for a truthy name; read until `0 disabled` or the timer. */
  function ListClientsTask(clientName: Option<string>): (t: Socket.Task)
    ensures t.want == Socket.Terminator(Disabled)
  {
    Socket.Task("who" + (if Truthy(clientName) then " " + clientName.value else "") + "\n", Socket.Terminator(Disabled))
  }

  datatype ClientsOutcome = ClientsFail(message: string) | Clients(clients: map<string, string>) | Address(addr: Option<string>)

  /** `listClients`' callback: the name-to-address map, or one address (null when absent or empty). */
  method ListClients(clientName: Option<string>, response: Socket.Response) returns (o: ClientsOutcome)
    ensures response.Failure? ==> o == ClientsFail(response.error)
    ensures response == Success([Disabled]) ==> o == ClientsFail(ListDisabled)
    ensures response.Success? && response.value != [Disabled] ==>
      var clients := LastWins(response.value, ClientEntry);
      && (!Truthy(clientName) ==> o == Clients(clients))
      && (Truthy(clientName) ==>
            o == Address(if clientName.value in clients && clients[clientName.value] != "" then Some(clients[clientName.value]) else None))
  {
    if response.Failure? {
      return ClientsFail(response.error);
    }
    var lines := response.value;
    if |lines| == 1 && lines[0] == Disabled {
      return ClientsFail(ListDisabled);
    }
    var clients: map<string, string> := map[];
    for i := 0 to |lines|
      invariant clients == LastWins(lines[..i], ClientEntry)
    {
      var (addr, name) := SplitEntry(lines[i]);
      clients := clients[name := addr];
      assert lines[..i + 1][..i] == lines[..i];
    }
    assert lines[..|lines|] == lines;
    if Truthy(clientName) {
      o := Address(if clientName.value in clients && clients[clientName.value] != "" then Some(clients[clientName.value]) else None);
    } else {
      o := Clients(clients);
    }
  }

  /** `q`, collected until the timer: the number of stats lines is not fixed. */
  function GetStatsTask(): Socket.Task {
    Socket.Task("q\n", Socket.Open)
  }

  /** `getStats`' callback: every `key: value` line sets `stats[key]` to the value's number. */
  method GetStats(response: Socket.Response) returns (o: Result<map<string, Utils.Num>, string>)
    ensures response.Failure? ==> o == Failure(response.error)
    ensures response.Success? ==> o == Success(LastWins(response.value, StatEntry))
  {
    if response.Failure? {
      return Failure(response.error);
    }
    var lines := response.value;
    var stats: map<string, Utils.Num> := map[];
    for i := 0 to |lines|
      invariant stats == LastWins(lines[..i], StatEntry)
    {
      var (key, val) := SplitEntry(lines[i]);
      stats := stats[key := Utils.ToNumber(val)];
      assert lines[..i + 1][..i] == lines[..i];
    }
    assert lines[..|lines|] == lines;
    o := Success(stats);
  }
}
