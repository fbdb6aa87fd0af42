/**
 * String utilities shared by the lockd client and server (lib/utils.js):
 * the wire tokenizer `splitAtFirstSpace` and the `[host:]port` parser.
 */
module Utils {
  import opened Wrappers

  // ---------------------------------------------------------------------
  // Searching and decimal digits
  // ---------------------------------------------------------------------

  /** `pat` occurs in `s` starting at index `j`. */
  predicate OccursAt(s: string, pat: string, j: int) {
    0 <= j && j + |pat| <= |s| && s[j..j + |pat|] == pat
  }

  /** `String.prototype.indexOf`: the first index at which `pat` occurs, or -1. */
  function IndexOf(s: string, pat: string): (i: int)
    ensures -1 <= i <= |s|
    ensures i >= 0 ==> OccursAt(s, pat, i)
    ensures forall j :: 0 <= j && (i < 0 || j < i) ==> !OccursAt(s, pat, j)
  {
    IndexFrom(s, pat, 0)
  }

  /** The first index at or after `from` at which `pat` occurs, or -1. */
  function IndexFrom(s: string, pat: string, from: nat): (i: int)
    ensures i == -1 || (from <= i <= |s| && OccursAt(s, pat, i))
    ensures forall j :: from <= j && (i < 0 || j < i) ==> !OccursAt(s, pat, j)
    decreases |s| + 1 - from
  {
    if from + |pat| > |s| then -1
    else if OccursAt(s, pat, from) then from
    else IndexFrom(s, pat, from + 1)
  }

  /** A one-character pattern occurs exactly where that character is. */
  lemma OccursAtChar(s: string, c: char, j: int)
    requires 0 <= j < |s|
    ensures OccursAt(s, [c], j) <==> s[j] == c
  {
    if s[j] == c {
      assert s[j..j + 1] == [c];
    }
  }

  /** `indexOf` of a one-character string: -1 when absent, else its first position. */
  function CharIndex(s: string, ch: char): (c: int)
    ensures c < 0 ==> ch !in s
    ensures c >= 0 ==> c < |s| && s[c] == ch && ch !in s[..c]
  {
    var c := IndexOf(s, [ch]);
    forall j | 0 <= j < |s| ensures OccursAt(s, [ch], j) <==> s[j] == ch {
      OccursAtChar(s, ch, j);
    }
    c
  }

  predicate IsDigit(c: char) { '0' <= c <= '9' }

  /** Every character is a decimal digit (the empty string qualifies). */
  predicate AllDigits(s: string) {
    forall k :: 0 <= k < |s| ==> IsDigit(s[k])
  }

  /** The value of a string of decimal digits. */
  function DecimalValue(s: string): nat
    requires AllDigits(s)
    decreases |s|
  {
    if s == [] then 0
    else DecimalValue(s[..|s| - 1]) * 10 + (s[|s| - 1] as int - '0' as int)
  }

  function DigitChar(d: nat): (c: char)
    requires d < 10
    ensures IsDigit(c) && c as int - '0' as int == d
  {
    (d + '0' as int) as char
  }

  /** The decimal text of `n`, as `util.format('%d', n)` writes it. */
  function NatToString(n: nat): (s: string)
    ensures |s| > 0 && AllDigits(s)
    ensures n >= 10 ==> s[0] != '0'
    decreases n
  {
    if n < 10 then [DigitChar(n)]
    else NatToString(n / 10) + [DigitChar(n % 10)]
  }

  /** Reading back the decimal text of a number gives the number. */
  lemma {:induction false} DecimalRoundTrip(n: nat)
    ensures DecimalValue(NatToString(n)) == n
  {
    if n >= 10 {
      var s := NatToString(n);
      assert s[..|s| - 1] == NatToString(n / 10);
      DecimalRoundTrip(n / 10);
    }
  }

  /**
   * The numeric conversion `+val` for the operands this model covers:
   * the empty string is 0, a digit string is its value, anything else NaN.
   */
  datatype Num = Num(value: nat) | NaN

  /** JavaScript truthiness of a number: neither 0 nor NaN. */
  predicate IsNonZero(n: Num) { n.Num? && n.value != 0 }

  function ToNumber(s: string): (n: Num)
    ensures n.NaN? <==> !AllDigits(s)
    ensures n.Num? && s != [] ==> n.value == DecimalValue(s)
    ensures s == [] ==> n == Num(0)
  {
    if AllDigits(s) then Num(DecimalValue(s)) else NaN
  }

  lemma ToNumberOfNat(n: nat)
    ensures ToNumber(NatToString(n)) == Num(n)
  {
    DecimalRoundTrip(n);
  }

  // ---------------------------------------------------------------------
  // splitAtFirstSpace
  // ---------------------------------------------------------------------

  /**
   * Splits `msg` at its first space into the text before it and the text
   * after it; with no space the second part is null (None).
   */
  function SplitAtFirstSpace(msg: string): (r: (string, Option<string>))
    ensures ' ' !in r.0
    ensures r.1.Some? <==> ' ' in msg
    ensures r.1.Some? ==> msg == r.0 + " " + r.1.value
    ensures r.1.None? ==> r.0 == msg
  {
    var i := CharIndex(msg, ' ');
    if i < 0 then (msg, None)
    else
      var before, after := msg[..i], msg[i + 1..];
      assert msg == before + [msg[i]] + after;
      assert ' ' in msg by { assert msg[i] == ' '; }
      (before, Some(after))
  }

  /** The `firstPartIsNumber` form: the first part goes through `+val`. */
  function SplitAtFirstSpaceNumber(msg: string): (r: (Num, Option<string>))
    ensures r.0 == ToNumber(SplitAtFirstSpace(msg).0)
    ensures r.1 == SplitAtFirstSpace(msg).1
  {
    var (val, rest) := SplitAtFirstSpace(msg);
    (ToNumber(val), rest)
  }

  /** Joining a space-free word and any text with one space splits back into the two. */
  lemma SplitRoundTrip(word: string, rest: string)
    requires ' ' !in word
    ensures SplitAtFirstSpace(word + " " + rest) == (word, Some(rest))
  {
    var msg := word + " " + rest;
    assert msg[|word|] == ' ';
    var r := SplitAtFirstSpace(msg);
    var v := r.1.value;
    assert msg == r.0 + " " + v;
    assert r.0 == msg[..|word|] == word;
    assert v == msg[|word| + 1..] == rest;
  }

  /** A message without a space is returned whole, with a null second part. */
  lemma SplitNoSpace(msg: string)
    requires ' ' !in msg
    ensures SplitAtFirstSpace(msg) == (msg, None)
  {
  }

  // ---------------------------------------------------------------------
  // parseHostPort
  // ---------------------------------------------------------------------

  datatype HostPort = HostPort(host: Option<string>, port: nat)

  const PortZeroError: string := "Port 0 is not valid."

  function InvalidHostPortError(str: string): string {
    "Invalid [host:]port string: " + str
  }

  /** A character of the class `[\w-.]`. */
  predicate IsHostChar(c: char) {
    ('A' <= c <= 'Z') || ('a' <= c <= 'z') || IsDigit(c) || c == '_' || c == '-' || c == '.'
  }

  /** `[\w-.]+` */
  predicate IsHost(s: string) {
    |s| > 0 && forall k :: 0 <= k < |s| ==> IsHostChar(s[k])
  }

  /** `\d+` */
  predicate IsPort(s: string) {
    |s| > 0 && AllDigits(s)
  }

  /** The language of the pattern `^(([\w-.]+):)?(\d+)$`. */
  ghost predicate MatchesHostPort(s: string) {
    IsPort(s) || exists i :: 0 <= i < |s| && s[i] == ':' && IsHost(s[..i]) && IsPort(s[i + 1..])
  }

  function PortResult(host: Option<string>, digits: string): (r: Result<HostPort, string>)
    requires IsPort(digits)
    ensures r.Success? <==> DecimalValue(digits) != 0
    ensures r.Success? ==> r.value == HostPort(host, DecimalValue(digits))
    ensures r.Failure? ==> r.error == PortZeroError
  {
    var port := DecimalValue(digits);
    if port == 0 then Failure(PortZeroError) else Success(HostPort(host, port))
  }

  /** Parses `[host:]port`, rejecting port 0 and every string outside the pattern. */
  function ParseHostPort(str: string): (r: Result<HostPort, string>)
    ensures r.Success? ==> r.value.port > 0
    ensures r.Success? && r.value.host.None? ==> ':' !in str && IsPort(str) && r.value.port == DecimalValue(str)
    ensures r.Success? && r.value.host.Some? ==>
      exists digits :: str == r.value.host.value + ":" + digits && IsHost(r.value.host.value)
        && IsPort(digits) && r.value.port == DecimalValue(digits)
    ensures r.Failure? ==> r.error == PortZeroError || r.error == InvalidHostPortError(str)
  {
    var c := CharIndex(str, ':');
    if c < 0 then
      if IsPort(str) then PortResult(None, str) else Failure(InvalidHostPortError(str))
    else
      var host, digits := str[..c], str[c + 1..];
      if IsHost(host) && IsPort(digits) then
        assert str == host + ":" + digits;
        PortResult(Some(host), digits)
      else Failure(InvalidHostPortError(str))
  }

  /** A string is rejected as malformed exactly when it is outside the pattern. */
  lemma ParseHostPortGrammar(str: string)
    ensures ParseHostPort(str) == Failure(InvalidHostPortError(str)) <==> !MatchesHostPort(str)
  {
    var c := CharIndex(str, ':');
    if c >= 0 {
      ColonSplitsOnce(str, c);
    }
  }

  /** In a string whose first ':' is at `c`, only a split at `c` can match the pattern. */
  lemma ColonSplitsOnce(str: string, c: int)
    requires 0 <= c < |str| && str[c] == ':' && ':' !in str[..c]
    ensures !IsPort(str)
    ensures MatchesHostPort(str) <==> IsHost(str[..c]) && IsPort(str[c + 1..])
  {
    assert !IsDigit(str[c]);
    forall i | 0 <= i < |str| && str[i] == ':' && IsHost(str[..i])
      ensures i == c
    {
    }
  }

  /** `host:digits` parses to that host and the digits' value, unless the value is 0. */
  lemma ParseHostAndPort(host: string, digits: string)
    requires IsHost(host) && IsPort(digits)
    ensures ParseHostPort(host + ":" + digits) ==
      if DecimalValue(digits) == 0 then Failure(PortZeroError)
      else Success(HostPort(Some(host), DecimalValue(digits)))
  {
    var str := host + ":" + digits;
    var c := CharIndex(str, ':');
    assert str[|host|] == ':';
    assert forall j :: 0 <= j < |host| ==> str[j] == host[j];
    assert c == |host|;
    assert str[..c] == host && str[c + 1..] == digits;
  }

  /** A bare digit string parses to a port with no host, unless its value is 0. */
  lemma ParseBarePort(digits: string)
    requires IsPort(digits)
    ensures ParseHostPort(digits) ==
      if DecimalValue(digits) == 0 then Failure(PortZeroError)
      else Success(HostPort(None, DecimalValue(digits)))
  {
  }
}
