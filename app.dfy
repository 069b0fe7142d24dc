/**
 * `SftpguiApp::ParseHost` (main.cpp): reading `[user@]host[:port]`, from the
 * command line or the start-up dialog, into the username, host and port the
 * frame connects with. The local username (`wxGetUserId`) is a parameter.
 *
 * The port text goes to `std::stoi` once it is all digits, so an empty port
 * and one beyond `INT_MAX` make `stoi` throw instead of reaching the range
 * check. `ParseHostAsWritten` keeps that; `ParseHost` rejects both as an
 * invalid port number.
 */
module App {
  import opened Wrappers
  import opened Text

  const DEFAULT_PORT: int := 22

  /** The largest value of a 32-bit `int`, beyond which `stoi` throws `out_of_range`. */
  const INT_MAX: nat := 0x7fff_ffff

  datatype HostSpec = HostSpec(username: string, host: string, port: int)

  /** `ParseHost` returned true, logged a fatal error and returned false, or threw. */
  datatype HostParse = Parsed(spec: HostSpec) | Rejected(message: string) | Threw

  const NON_DIGIT_PORT := "non-digit port number"
  const INVALID_PORT := "invalid port number"

  /** The username: before the first `@`, or the local one when there is no `@`. */
  function UserOf(input: string, localUser: string): string
  {
    var at := IndexOf(input, '@');
    if at < |input| then input[..at] else localUser
  }

  /** What follows the first `@`, or the whole input without one. */
  function AfterUser(input: string): string
  {
    var at := IndexOf(input, '@');
    if at < |input| then input[at + 1..] else input
  }

  /** The text after the first `:` of `AfterUser`, if there is a `:`. */
  function PortText(input: string): Option<string>
  {
    var rest := AfterUser(input);
    var colon := IndexOf(rest, ':');
    if colon < |rest| then Some(rest[colon + 1..]) else None
  }

  /** The host: `AfterUser` up to its first `:`. */
  function HostOf(input: string): (h: string)
    ensures ':' !in h
  {
    var rest := AfterUser(input);
    rest[..IndexOf(rest, ':')]
  }

  /** A port the range check accepts. */
  predicate ValidPortText(ps: string)
  {
    AllDigits(ps) && ps != "" && 0 < DigitsValue(ps) < 65536
  }

  /** `ParseHost` as written, `stoi` exceptions included. */
  function ParseHostAsWritten(input: string, localUser: string): (r: HostParse)
    ensures r.Threw? <==>
      PortText(input).Some? && AllDigits(PortText(input).value)
      && (PortText(input).value == "" || DigitsValue(PortText(input).value) > INT_MAX)
    ensures r.Parsed? ==> r.spec.username == UserOf(input, localUser) && r.spec.host == HostOf(input)
    ensures r.Parsed? ==> 0 < r.spec.port < 65536
    ensures r.Parsed? && PortText(input).None? ==> r.spec.port == DEFAULT_PORT
    ensures r.Parsed? && PortText(input).Some? ==>
      AllDigits(PortText(input).value) && r.spec.port == DigitsValue(PortText(input).value)
  {
    var user := UserOf(input, localUser);
    match PortText(input)
    case None => Parsed(HostSpec(user, HostOf(input), DEFAULT_PORT))
    case Some(ps) =>
      if !AllDigits(ps) then Rejected(NON_DIGIT_PORT)
      else if ps == "" || DigitsValue(ps) > INT_MAX then Threw
      else if !(0 < DigitsValue(ps) < 65536) then Rejected(INVALID_PORT)
      else Parsed(HostSpec(user, HostOf(input), DigitsValue(ps)))
  }

  /** `ParseHost` with an empty or oversized port rejected by the range check. */
  function ParseHost(input: string, localUser: string): (r: HostParse)
    ensures !r.Threw?
    ensures r.Parsed? <==> PortText(input).None? || ValidPortText(PortText(input).value)
    ensures r.Parsed? ==> r.spec.username == UserOf(input, localUser) && r.spec.host == HostOf(input)
    ensures r.Parsed? ==> 0 < r.spec.port < 65536
    ensures r.Parsed? && PortText(input).None? ==> r.spec.port == DEFAULT_PORT
    ensures r.Parsed? && PortText(input).Some? ==>
      AllDigits(PortText(input).value) && r.spec.port == DigitsValue(PortText(input).value)
    ensures r == Rejected(NON_DIGIT_PORT) <==> PortText(input).Some? && !AllDigits(PortText(input).value)
  {
    var user := UserOf(input, localUser);
    match PortText(input)
    case None => Parsed(HostSpec(user, HostOf(input), DEFAULT_PORT))
    case Some(ps) =>
      if !AllDigits(ps) then Rejected(NON_DIGIT_PORT)
      else if !ValidPortText(ps) then Rejected(INVALID_PORT)
      else Parsed(HostSpec(user, HostOf(input), DigitsValue(ps)))
  }

  /** Where the code as written does not throw, it does what `ParseHost` does. */
  lemma AsWrittenAgrees(input: string, localUser: string)
    requires !ParseHostAsWritten(input, localUser).Threw?
    ensures ParseHostAsWritten(input, localUser) == ParseHost(input, localUser)
  {
  }

  /** `"host:"`: the empty port passes the digit test and `stoi("")` throws. */
  lemma EmptyPortThrows(localUser: string)
    ensures ParseHostAsWritten("host:", localUser) == Threw
    ensures ParseHost("host:", localUser) == Rejected(INVALID_PORT)
  {
    assert IndexOf("host:", '@') == 5;
    assert IndexOf("host:", ':') == 4;
    assert "host:"[5..] == "";
  }

  function Pow10(n: nat): nat
  {
    if n == 0 then 1 else 10 * Pow10(n - 1)
  }

  /** A string of digits without a leading zero is worth at least 10 to the power of one less than its length. */
  lemma {:induction false} DigitsValueAtLeast(s: string)
    requires AllDigits(s) && s != "" && s[0] != '0'
    ensures DigitsValue(s) >= Pow10(|s| - 1)
    decreases |s|
  {
    if |s| > 1 {
      var p := s[..|s| - 1];
      assert p[0] == s[0];
      DigitsValueAtLeast(p);
    }
  }

  /** A port of eleven or more digits, such as `host:10000000000`, makes `stoi` throw `out_of_range`. */
  lemma LongPortThrows(host: string, digits: string, localUser: string)
    requires '@' !in host && ':' !in host
    requires AllDigits(digits) && |digits| >= 11 && digits[0] != '0'
    ensures ParseHostAsWritten(host + ":" + digits, localUser) == Threw
    ensures ParseHost(host + ":" + digits, localUser) == Rejected(INVALID_PORT)
  {
    var input := host + ":" + digits;
    assert '@' !in digits by {
      forall i | 0 <= i < |digits| ensures digits[i] != '@' { assert IsDigit(digits[i]); }
    }
    assert '@' !in input;
    assert IndexOf(input, '@') == |input|;
    assert AfterUser(input) == input;
    assert input == host + (":" + digits);
    IndexOfConcat(host, ":" + digits, ':');
    assert input[|host| + 1..] == digits;
    assert PortText(input) == Some(digits);
    DigitsValueAtLeast(digits);
    Pow10Grows(|digits| - 1);
  }

  lemma {:induction false} Pow10Grows(n: nat)
    requires n >= 10
    ensures Pow10(n) > INT_MAX
  {
    if n > 10 {
      Pow10Grows(n - 1);
    } else {
      assert Pow10(10) == 10000000000;
    }
  }

  /** The text a `HostSpec` is written as. */
  function Format(spec: HostSpec): string
    requires spec.port >= 0
  {
    spec.username + "@" + spec.host + ":" + NatToString(spec.port)
  }

  /** A host spec written out in full reads back as itself. */
  lemma ParseFormat(spec: HostSpec, localUser: string)
    requires '@' !in spec.username && ':' !in spec.host && 0 < spec.port < 65536
    ensures ParseHost(Format(spec), localUser) == Parsed(spec)
  {
    var input := Format(spec);
    var digits := NatToString(spec.port);
    NatToStringDigits(spec.port);
    var u := spec.username;
    assert input == u + ("@" + spec.host + ":" + digits);
    assert IndexOf(input, '@') == |u| by { IndexOfConcat(u, "@" + spec.host + ":" + digits, '@'); }
    assert input[|u| + 1..] == spec.host + (":" + digits);
    assert input[..|u|] == u;
    IndexOfConcat(spec.host, ":" + digits, ':');
    assert AfterUser(input)[|spec.host| + 1..] == digits;
    assert AfterUser(input)[..|spec.host|] == spec.host;
    NatToStringRoundTrip(spec.port);
  }

  /** The first `c` of `a + b` where `a` has none and `b` starts with one. */
  lemma {:induction false} IndexOfConcat(a: string, b: string, c: char)
    requires c !in a && b != [] && b[0] == c
    ensures IndexOf(a + b, c) == |a|
    decreases |a|
  {
    if a != [] {
      assert (a + b)[1..] == a[1..] + b;
      IndexOfConcat(a[1..], b, c);
    }
  }

  /** Without `@` or `:` the input is the host, with the local username and port 22. */
  lemma HostOnly(input: string, localUser: string)
    requires '@' !in input && ':' !in input
    ensures ParseHost(input, localUser) == Parsed(HostSpec(localUser, input, DEFAULT_PORT))
  {
  }
}
