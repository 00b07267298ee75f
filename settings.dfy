/**
 * `loadSettings` (src/utils.cpp, lines 67-108): the settings file, one `key=value` line at a
 * time, into a `Config`. The file is given as its sequence of lines.
 */
module Settings {

  import opened Wrappers

  /**
   * `Config` (include/globals.h). The integer and boolean fields of the C++ struct are left
   * uninitialised until a line sets them; here that is `None`. The strings start empty.
   */
  datatype Config = Config(
    lookBackSeconds: Option<int>,
    delaySeconds: Option<int>,
    debug: Option<bool>,
    logToFile: Option<bool>,
    useGPU: Option<bool>,
    pythonInterpreter: string,
    marketAuxBaseApi: string,
    astraDBApplicationToken: string,
    astraDBApiEndpoint: string,
    openAIApi: string)

  /** The freshly declared `Config cfg;` of line 71. */
  const Unset: Config := Config(None, None, None, None, None, "", "", "", "", "")

  /** The exceptions `std::stoi` throws. */
  datatype StoiError = InvalidArgument | OutOfRange

  // ---------------------------------------------------------------------------------------
  // `std::stoi`: base-10 `strtol` followed by a range check against a 32-bit int.

  /** C `isspace` in the "C" locale. */
  predicate IsSpace(c: char)
  {
    c == ' ' || c == '\t' || c == '\n' || c == '\U{0B}' || c == '\U{0C}' || c == '\r'
  }

  predicate IsDigit(c: char)
  {
    '0' <= c <= '9'
  }

  const IntMin: int := -0x8000_0000
  const IntMax: int := 0x7FFF_FFFF

  function SkipSpaces(s: string): (r: string)
    ensures |r| <= |s|
    ensures r == [] || !IsSpace(r[0])
  {
    if s != [] && IsSpace(s[0]) then SkipSpaces(s[1..]) else s
  }

  /** Length of the longest prefix of digits. */
  function DigitRun(s: string): (n: nat)
    ensures n <= |s|
    ensures forall i :: 0 <= i < n ==> IsDigit(s[i])
    ensures n < |s| ==> !IsDigit(s[n])
  {
    if s != [] && IsDigit(s[0]) then 1 + DigitRun(s[1..]) else 0
  }

  function DigitValue(c: char): nat
  {
    if IsDigit(c) then c as int - '0' as int else 0
  }

  /** The value of a string of decimal digits, most significant first. */
  function DigitsValue(ds: string): nat
  {
    if ds == [] then 0
    else DigitsValue(ds[..|ds| - 1]) * 10 + DigitValue(ds[|ds| - 1])
  }

  /**
   * `std::stoi(value)`: leading white space is skipped, then an optional sign and at least one
   * digit are required (otherwise `invalid_argument`); whatever follows the digits is
   * ignored; a value outside the 32-bit range raises `out_of_range`.
   */
  function Stoi(s: string): Result<int, StoiError>
  {
    ParseSigned(SkipSpaces(s))
  }

  /** The part of `std::stoi` after the white space: sign, digits and range. */
  function ParseSigned(t: string): Result<int, StoiError>
  {
    var neg := t != [] && t[0] == '-';
    var u := if t != [] && (t[0] == '-' || t[0] == '+') then t[1..] else t;
    var n := DigitRun(u);
    if n == 0 then Failure(InvalidArgument)
    else
      var magnitude: int := DigitsValue(u[..n]);
      var v: int := if neg then -magnitude else magnitude;
      if v < IntMin || v > IntMax then Failure(OutOfRange) else Success(v)
  }

  /** Decimal rendering of a natural number, as `std::to_string` writes it. */
  function NatToString(n: nat): (r: string)
    ensures r != [] && forall i :: 0 <= i < |r| ==> IsDigit(r[i])
  {
    if n < 10 then [('0' as int + n) as char]
    else NatToString(n / 10) + [('0' as int + n % 10) as char]
  }

  function IntToString(n: int): string
  {
    if n < 0 then "-" + NatToString(-n) else NatToString(n)
  }

  lemma {:induction false} NatToStringValue(n: nat)
    ensures DigitsValue(NatToString(n)) == n
  {
    var r := NatToString(n);
    if n >= 10 {
      NatToStringValue(n / 10);
      assert r[..|r| - 1] == NatToString(n / 10);
    }
  }

  lemma {:induction false} DigitRunOfDigits(ds: string, rest: string)
    requires forall i :: 0 <= i < |ds| ==> IsDigit(ds[i])
    requires rest == [] || !IsDigit(rest[0])
    ensures DigitRun(ds + rest) == |ds|
  {
    if ds == [] {
      assert ds + rest == rest;
    } else {
      assert (ds + rest)[0] == ds[0] && (ds + rest)[1..] == ds[1..] + rest;
      DigitRunOfDigits(ds[1..], rest);
    }
  }

  /**
   * `stoi` reads back every 32-bit integer written in decimal, whatever non-digit text
   * follows it.
   */
  lemma StoiReadsDecimal(n: int, rest: string)
    requires IntMin <= n <= IntMax
    requires rest == [] || !IsDigit(rest[0])
    ensures Stoi(IntToString(n) + rest) == Success(n)
  {
    if n < 0 {
      StoiReadsNegative(n, rest);
    } else {
      DigitsThenRest(n, rest);
      StoiOfDigits(NatToString(n) + rest);
    }
  }

  lemma StoiReadsNegative(n: int, rest: string)
    requires IntMin <= n < 0
    requires rest == [] || !IsDigit(rest[0])
    ensures Stoi("-" + NatToString(-n) + rest) == Success(n)
  {
    var m: nat := -n;
    var u := NatToString(m) + rest;
    DigitsThenRest(m, rest);
    var s := "-" + u;
    assert s[1..] == u;
    StoiOfSign(s);
    AppendAssoc("-", NatToString(m), rest);
  }

  /** The digit run of a rendered number followed by non-digit text is the number. */
  lemma DigitsThenRest(m: nat, rest: string)
    requires rest == [] || !IsDigit(rest[0])
    ensures var u := NatToString(m) + rest;
      && u != [] && IsDigit(u[0])
      && DigitsValue(u[..DigitRun(u)]) == m
  {
    var ds := NatToString(m);
    var u := ds + rest;
    NatToStringValue(m);
    DigitRunOfDigits(ds, rest);
    assert u[..|ds|] == ds;
    assert u[0] == ds[0];
  }

  /** Unsigned digits: Stoi reads the digit run. */
  lemma StoiOfDigits(u: string)
    requires u != [] && IsDigit(u[0])
    ensures var m := DigitsValue(u[..DigitRun(u)]);
      Stoi(u) == if m > IntMax then Failure(OutOfRange) else Success(m)
  {
    assert SkipSpaces(u) == u;
    var m := DigitsValue(u[..DigitRun(u)]);
    assert Stoi(u) == if m > IntMax then Failure(OutOfRange) else Success(m);
  }

  /** A minus sign before digits: Stoi reads the negated digit run. */
  lemma StoiOfSign(s: string)
    requires |s| > 1 && s[0] == '-' && IsDigit(s[1])
    ensures var m := DigitsValue(s[1..][..DigitRun(s[1..])]);
      Stoi(s) == if m > -IntMin then Failure(OutOfRange) else Success(-(m as int))
  {
    assert SkipSpaces(s) == s;
  }

  /** A plus sign before digits: Stoi reads the digit run unchanged. */
  lemma StoiOfPlus(s: string)
    requires |s| > 1 && s[0] == '+' && IsDigit(s[1])
    ensures var m := DigitsValue(s[1..][..DigitRun(s[1..])]);
      Stoi(s) == if m > IntMax then Failure(OutOfRange) else Success(m)
  {
    assert SkipSpaces(s) == s;
  }

  /** Leading white space is skipped: the text after it reads as it would alone. */
  lemma StoiSkipsSpaces(w: string, t: string)
    requires forall i :: 0 <= i < |w| ==> IsSpace(w[i])
    requires t == [] || !IsSpace(t[0])
    ensures Stoi(w + t) == Stoi(t)
  {
    SkipSpacesPrefix(w, t);
    assert SkipSpaces(t) == t;
  }

  lemma {:induction false} SkipSpacesPrefix(w: string, t: string)
    requires forall i :: 0 <= i < |w| ==> IsSpace(w[i])
    requires t == [] || !IsSpace(t[0])
    ensures SkipSpaces(w + t) == t
    decreases |w|
  {
    if w == [] {
      assert w + t == t;
    } else {
      assert (w + t)[0] == w[0] && (w + t)[1..] == w[1..] + t;
      SkipSpacesPrefix(w[1..], t);
    }
  }

  /** Text without any digit after the optional white space and sign is rejected. */
  lemma StoiNeedsDigit(s: string)
    requires var t := SkipSpaces(s);
      var u := if t != [] && (t[0] == '-' || t[0] == '+') then t[1..] else t;
      u == [] || !IsDigit(u[0])
    ensures Stoi(s) == Failure(InvalidArgument)
  {
  }

  // ---------------------------------------------------------------------------------------
  // One line.

  /** `line.find('=')`. */
  function FirstIndex(s: string, c: char): (r: Option<nat>)
    ensures r.None? <==> c !in s
    ensures r.Some? ==> r.value < |s| && s[r.value] == c && c !in s[..r.value]
  {
    if s == [] then None
    else if s[0] == c then Some(0)
    else match FirstIndex(s[1..], c)
      case None => None
      case Some(i) =>
        assert s[..i + 1] == [s[0]] + s[1..][..i];
        Some(i + 1)
  }

  /** Lines 85-92: key before the first `=`, value after it; no `=` means no setting. */
  function Split(line: string): Option<(string, string)>
  {
    match FirstIndex(line, '=')
    case None => None
    case Some(p) => Some((line[..p], line[p + 1..]))
  }

  /**
   * A line holds a setting exactly when it contains `=`; the key is the text before the first
   * `=` and the value all the rest, later `=` included. Conversely any key without `=` and any
   * value split back out of `key=value`.
   */
  lemma SplitAtFirstDelimiter(line: string)
    ensures Split(line).None? <==> '=' !in line
    ensures Split(line).Some? ==>
      var (k, v) := Split(line).value; line == k + "=" + v && '=' !in k
  {
    if Split(line).Some? {
      var p := FirstIndex(line, '=').value;
      assert line == line[..p] + "=" + line[p + 1..];
    }
  }

  lemma SplitJoined(k: string, v: string)
    requires '=' !in k
    ensures Split(k + "=" + v) == Some((k, v))
  {
    var line := k + "=" + v;
    FirstIndexAfter(k, '=', v);
    assert line[..|k|] == k && line[|k| + 1..] == v;
  }

  lemma {:induction false} FirstIndexAfter(k: string, c: char, v: string)
    requires c !in k
    ensures FirstIndex(k + [c] + v, c) == Some(|k|)
  {
    if k != [] {
      assert (k + [c] + v)[1..] == k[1..] + [c] + v;
      FirstIndexAfter(k[1..], c, v);
    }
  }

  const IntKeys: set<string> := {"lookBackSeconds", "delaySeconds"}
  const BoolKeys: set<string> := {"debug", "logToFile", "useGPU"}
  const TextKeys: set<string> :=
    {"pythonInterpreter", "marketAuxBaseApi", "astraDBApplicationToken", "astraDBApiEndpoint", "openAIApi"}

  predicate IsKey(key: string)
  {
    key in IntKeys || key in BoolKeys || key in TextKeys
  }

  /** Lines 95-104: the field the key names receives the converted value; other keys do nothing. */
  function Assign(cfg: Config, key: string, value: string): Result<Config, StoiError>
  {
    if key == "lookBackSeconds" then
      match Stoi(value)
      case Failure(e) => Failure(e)
      case Success(n) => Success(cfg.(lookBackSeconds := Some(n)))
    else if key == "delaySeconds" then
      match Stoi(value)
      case Failure(e) => Failure(e)
      case Success(n) => Success(cfg.(delaySeconds := Some(n)))
    else if key == "debug" then Success(cfg.(debug := Some(value == "true")))
    else if key == "logToFile" then Success(cfg.(logToFile := Some(value == "true")))
    else if key == "useGPU" then Success(cfg.(useGPU := Some(value == "true")))
    else if key == "pythonInterpreter" then Success(cfg.(pythonInterpreter := value))
    else if key == "marketAuxBaseApi" then Success(cfg.(marketAuxBaseApi := value))
    else if key == "astraDBApplicationToken" then Success(cfg.(astraDBApplicationToken := value))
    else if key == "astraDBApiEndpoint" then Success(cfg.(astraDBApiEndpoint := value))
    else if key == "openAIApi" then Success(cfg.(openAIApi := value))
    else Success(cfg)
  }

  function ApplyLine(cfg: Config, line: string): Result<Config, StoiError>
  {
    match Split(line)
    case None => Success(cfg)
    case Some((k, v)) => Assign(cfg, k, v)
  }

  /** The loop of lines 82-105; the first `stoi` exception ends the load. */
  function LoadFrom(cfg: Config, lines: seq<string>): Result<Config, StoiError>
    decreases |lines|
  {
    if lines == [] then Success(cfg)
    else match ApplyLine(cfg, lines[0])
      case Failure(e) => Failure(e)
      case Success(c) => LoadFrom(c, lines[1..])
  }

  /** `loadSettings` once the file is open. */
  method LoadSettings(lines: seq<string>) returns (r: Result<Config, StoiError>)
    ensures r == LoadFrom(Unset, lines)
  {
    var cfg := Unset;
    for i := 0 to |lines|
      invariant LoadFrom(cfg, lines[i..]) == LoadFrom(Unset, lines)
    {
      var line := lines[i];
      assert lines[i..][0] == line && lines[i..][1..] == lines[i + 1..];
      var delimiterPos := FirstIndex(line, '=');
      if delimiterPos.None? {
        continue;
      }
      var key := line[..delimiterPos.value];
      var value := line[delimiterPos.value + 1..];
      if key == "lookBackSeconds" {
        var n := Stoi(value);
        if n.Failure? {
          return Failure(n.error);
        }
        cfg := cfg.(lookBackSeconds := Some(n.value));
      } else if key == "delaySeconds" {
        var n := Stoi(value);
        if n.Failure? {
          return Failure(n.error);
        }
        cfg := cfg.(delaySeconds := Some(n.value));
      } else if key == "debug" {
        cfg := cfg.(debug := Some(value == "true"));
      } else if key == "logToFile" {
        cfg := cfg.(logToFile := Some(value == "true"));
      } else if key == "useGPU" {
        cfg := cfg.(useGPU := Some(value == "true"));
      } else if key == "pythonInterpreter" {
        cfg := cfg.(pythonInterpreter := value);
      } else if key == "marketAuxBaseApi" {
        cfg := cfg.(marketAuxBaseApi := value);
      } else if key == "astraDBApplicationToken" {
        cfg := cfg.(astraDBApplicationToken := value);
      } else if key == "astraDBApiEndpoint" {
        cfg := cfg.(astraDBApiEndpoint := value);
      } else if key == "openAIApi" {
        cfg := cfg.(openAIApi := value);
      }
    }
    return Success(cfg);
  }

  // ---------------------------------------------------------------------------------------
  // What a load yields, independently of the order of the dispatch: every field holds the
  // value of the last line that names it.

  datatype Setting = IntSetting(i: Option<int>) | BoolSetting(b: Option<bool>) | TextSetting(s: string)

  /** The field `key` names. */
  function Get(cfg: Config, key: string): Setting
    requires IsKey(key)
  {
    match key
    case "lookBackSeconds" => IntSetting(cfg.lookBackSeconds)
    case "delaySeconds" => IntSetting(cfg.delaySeconds)
    case "debug" => BoolSetting(cfg.debug)
    case "logToFile" => BoolSetting(cfg.logToFile)
    case "useGPU" => BoolSetting(cfg.useGPU)
    case "pythonInterpreter" => TextSetting(cfg.pythonInterpreter)
    case "marketAuxBaseApi" => TextSetting(cfg.marketAuxBaseApi)
    case "astraDBApplicationToken" => TextSetting(cfg.astraDBApplicationToken)
    case "astraDBApiEndpoint" => TextSetting(cfg.astraDBApiEndpoint)
    case _ => TextSetting(cfg.openAIApi)
  }

  /** The setting a value gives the field of `key`: an integer via stoi, a flag, or text. */
  function Decode(key: string, value: string): Result<Setting, StoiError>
  {
    if key in IntKeys then
      match Stoi(value)
      case Failure(e) => Failure(e)
      case Success(n) => Success(IntSetting(Some(n)))
    else if key in BoolKeys then Success(BoolSetting(Some(value == "true")))
    else Success(TextSetting(value))
  }

  /**
   * Assigning a known key sets its field to the decoded value and leaves every other field as
   * it was, failing exactly when decoding fails; an unknown key changes nothing.
   */
  lemma AssignEffect(cfg: Config, key: string, value: string)
    ensures !IsKey(key) ==> Assign(cfg, key, value) == Success(cfg)
    ensures IsKey(key) ==> (Assign(cfg, key, value).Failure? <==> Decode(key, value).Failure?)
    ensures IsKey(key) && Decode(key, value).Failure? ==>
      Assign(cfg, key, value).error == Decode(key, value).error
    ensures IsKey(key) && Assign(cfg, key, value).Success? ==>
      && Get(Assign(cfg, key, value).value, key) == Decode(key, value).value
      && forall k :: IsKey(k) && k != key ==> Get(Assign(cfg, key, value).value, k) == Get(cfg, k)
  {
  }

  /** The key a line sets, if it has the form key=value. */
  function KeyOf(line: string): Option<string>
  {
    match Split(line)
    case None => None
    case Some((k, _)) => Some(k)
  }

  function ValueOf(line: string): string
  {
    match Split(line)
    case None => ""
    case Some((_, v)) => v
  }

  /** The value of the last line whose key is `key`. */
  function LastValue(lines: seq<string>, key: string): Option<string>
    decreases |lines|
  {
    if lines == [] then None
    else match LastValue(lines[1..], key)
      case Some(v) => Some(v)
      case None => if KeyOf(lines[0]) == Some(key) then Some(ValueOf(lines[0])) else None
  }

  /** A line whose integer value `stoi` rejects. */
  predicate BadLine(line: string)
  {
    match Split(line)
    case None => false
    case Some((k, v)) => k in IntKeys && Stoi(v).Failure?
  }

  /** The error of the first line `stoi` rejects. */
  function FirstError(lines: seq<string>): Option<StoiError>
    decreases |lines|
  {
    if lines == [] then None
    else if BadLine(lines[0]) then Some(Stoi(ValueOf(lines[0])).error)
    else FirstError(lines[1..])
  }

  /**
   * A load fails exactly when some line gives an integer key a value `stoi` rejects, and then
   * with that first line's error, whatever the other lines hold.
   */
  lemma {:induction false} LoadFails(cfg: Config, lines: seq<string>)
    ensures LoadFrom(cfg, lines).Failure? <==> FirstError(lines).Some?
    ensures LoadFrom(cfg, lines).Failure? ==> LoadFrom(cfg, lines).error == FirstError(lines).value
    decreases |lines|
  {
    if lines != [] {
      var l := lines[0];
      match Split(l)
      case None =>
        LoadFails(cfg, lines[1..]);
      case Some((k, v)) =>
        AssignEffect(cfg, k, v);
        if !BadLine(l) {
          LoadFails(ApplyLine(cfg, l).value, lines[1..]);
        }
    }
  }

  /** There is a first bad line exactly when there is a bad line. */
  lemma FirstErrorExists(lines: seq<string>)
    ensures FirstError(lines).Some? <==> exists i :: 0 <= i < |lines| && BadLine(lines[i])
  {
    if FirstError(lines).Some? {
      var i := ErrorHasBadLine(lines);
    }
    if exists i :: 0 <= i < |lines| && BadLine(lines[i]) {
      var i :| 0 <= i < |lines| && BadLine(lines[i]);
      BadLineGivesError(lines, i);
    }
  }

  /** A bad line anywhere makes the first error exist. */
  lemma {:induction false} BadLineGivesError(lines: seq<string>, i: nat)
    requires i < |lines| && BadLine(lines[i])
    ensures FirstError(lines).Some?
    decreases i
  {
    if i > 0 && !BadLine(lines[0]) {
      assert lines[1..][i - 1] == lines[i];
      BadLineGivesError(lines[1..], i - 1);
    }
  }

  /** The first error comes from some bad line. */
  lemma {:induction false} ErrorHasBadLine(lines: seq<string>) returns (i: nat)
    requires FirstError(lines).Some?
    ensures i < |lines| && BadLine(lines[i])
    decreases |lines|
  {
    if BadLine(lines[0]) {
      i := 0;
    } else {
      var j := ErrorHasBadLine(lines[1..]);
      i := j + 1;
    }
  }

  /**
   * After a load that succeeds, each field holds what the last line naming it decodes to
   * (lines with no `=`, with unknown keys or with a key written differently do nothing), or
   * its initial value when no line names it.
   */
  lemma {:induction false} LoadIsLastAssignment(cfg: Config, lines: seq<string>, key: string)
    requires IsKey(key)
    requires LoadFrom(cfg, lines).Success?
    ensures match LastValue(lines, key)
      case None => Get(LoadFrom(cfg, lines).value, key) == Get(cfg, key)
      case Some(v) => Decode(key, v) == Success(Get(LoadFrom(cfg, lines).value, key))
    decreases |lines|
  {
    if lines != [] {
      var l := lines[0];
      var c := ApplyLine(cfg, l).value;
      LoadIsLastAssignment(c, lines[1..], key);
      match Split(l)
      case None =>
      case Some((k, v)) =>
        AssignEffect(cfg, k, v);
    }
  }

  /** Keys match only exactly: a space before the `=` makes the key unknown. */
  lemma PaddedKeyIgnored(cfg: Config, key: string, value: string)
    requires IsKey(key)
    ensures ApplyLine(cfg, key + " =" + value) == Success(cfg)
  {
    var padded := key + " ";
    assert key + " =" + value == padded + "=" + value;
    assert '=' !in padded;
    SplitJoined(padded, value);
    NoKeyEndsInSpace(padded);
    AssignUnknown(cfg, padded, value);
  }

  lemma AssignUnknown(cfg: Config, key: string, value: string)
    requires !IsKey(key)
    ensures Assign(cfg, key, value) == Success(cfg)
  {
  }

  lemma NoKeyEndsInSpace(s: string)
    requires s != [] && s[|s| - 1] == ' '
    ensures !IsKey(s)
  {
  }
}
