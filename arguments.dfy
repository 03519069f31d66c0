/**
 * The command-line parsing of `boot_test_loop.py`: the four settings with
 * their defaults, and the index-driven loop over `sys.argv` that overwrites
 * them. A flag's value is read as `sys.argv[i+1]` and, for `-l` and `-d`,
 * converted with `int()`; both can fail, and the program then stops with an
 * uncaught exception, modelled here as an `Err`.
 */
module Arguments {
  import opened Wrappers

  /** The test configuration: switch address, unit address, iterations, boot wait in seconds. */
  datatype Config = Config(switchIp: string, platformIp: string, loops: int, waitForFullBoot: int)

  const DefaultSwitchIp: string := "192.168.0.150"
  const XiOneIp: string := "192.168.0.171"

  /** The module-level settings before any argument is read. */
  function Defaults(): (c: Config)
    ensures c.switchIp == DefaultSwitchIp && c.platformIp == XiOneIp && c.loops == 1 && c.waitForFullBoot == 90
  {
    Config(DefaultSwitchIp, XiOneIp, 1, 90)
  }

  /** Why parsing stopped: a flag with no token after it (IndexError), or a value `int()` rejects (ValueError). */
  datatype ArgError = MissingValue(flag: string) | NotAnInteger(token: string)

  /** The four flags that take a value. */
  predicate IsFlag(token: string) {
    token == "-s" || token == "-t" || token == "-l" || token == "-d"
  }

  // ---- int() on a token ----------------------------------------------------

  predicate IsDigit(c: char) {
    '0' <= c <= '9'
  }

  predicate AllDigits(s: string) {
    forall k :: 0 <= k < |s| ==> IsDigit(s[k])
  }

  /** The value of a string of decimal digits, most significant first. */
  function DigitsValue(s: string): (n: nat)
    requires AllDigits(s)
  {
    if s == [] then 0
    else DigitsValue(s[..|s| - 1]) * 10 + (s[|s| - 1] as int - '0' as int)
  }

  /** `int(token)`: an optional sign followed by at least one decimal digit; None where `int()` raises. */
  function ParseInt(token: string): (r: Option<int>)
    ensures r.Some? ==> exists k :: 0 <= k < |token| && IsDigit(token[k])
  {
    if |token| > 1 && (token[0] == '-' || token[0] == '+') && AllDigits(token[1..]) then
      assert IsDigit(token[1..][0]);
      var magnitude: int := DigitsValue(token[1..]);
      Some(if token[0] == '-' then -magnitude else magnitude)
    else if |token| > 0 && AllDigits(token) then
      assert IsDigit(token[0]);
      Some(DigitsValue(token))
    else None
  }

  /** Decimal rendering of a natural number, the partner of DigitsValue. */
  function NatToString(n: nat): (s: string)
    ensures |s| > 0 && AllDigits(s)
  {
    var d := [('0' as int + n % 10) as char];
    if n < 10 then d else NatToString(n / 10) + d
  }

  /** Decimal rendering of an integer, with a leading '-' for negatives. */
  function IntToString(n: int): (s: string)
  {
    if n < 0 then "-" + NatToString(-n) else NatToString(n)
  }

  lemma {:induction false} DigitsValueOfNatToString(n: nat)
    ensures DigitsValue(NatToString(n)) == n
  {
    var s := NatToString(n);
    if n >= 10 {
      DigitsValueOfNatToString(n / 10);
      assert s[..|s| - 1] == NatToString(n / 10);
    }
  }

  /** Every integer written in decimal is read back by `int()` as itself. */
  lemma ParseIntRoundTrip(n: int)
    ensures ParseInt(IntToString(n)) == Some(n)
  {
    var s := IntToString(n);
    if n < 0 {
      DigitsValueOfNatToString(-n);
      assert s[1..] == NatToString(-n);
    } else {
      DigitsValueOfNatToString(n);
    }
  }

  // ---- the argv loop ---------------------------------------------------------

  /** The effect of one flag and its value on the settings. */
  function Apply(cfg: Config, flag: string, value: string): (r: Result<Config, ArgError>)
    requires IsFlag(flag)
    ensures r.Err? ==> (flag == "-l" || flag == "-d") && r.error == NotAnInteger(value)
    ensures flag == "-s" || flag == "-t" ==> r.Ok?
    ensures (flag == "-l" || flag == "-d") ==> (r.Ok? <==> ParseInt(value).Some?)
    ensures r.Ok? && flag == "-s" ==> r.value.switchIp == value
    ensures r.Ok? && flag == "-t" ==> r.value.platformIp == value
    ensures r.Ok? && flag == "-l" ==> ParseInt(value) == Some(r.value.loops)
    ensures r.Ok? && flag == "-d" ==> ParseInt(value) == Some(r.value.waitForFullBoot)
    ensures r.Ok? && flag != "-s" ==> r.value.switchIp == cfg.switchIp
    ensures r.Ok? && flag != "-t" ==> r.value.platformIp == cfg.platformIp
    ensures r.Ok? && flag != "-l" ==> r.value.loops == cfg.loops
    ensures r.Ok? && flag != "-d" ==> r.value.waitForFullBoot == cfg.waitForFullBoot
  {
    if flag == "-s" then Ok(cfg.(switchIp := value))
    else if flag == "-t" then Ok(cfg.(platformIp := value))
    else
      match ParseInt(value)
      case None => Err(NotAnInteger(value))
      case Some(n) => if flag == "-l" then Ok(cfg.(loops := n)) else Ok(cfg.(waitForFullBoot := n))
  }

  /**
   * Reference definition of the loop, from index `i` with the settings `cfg`:
   * a flag consumes itself and the next token, any other token only itself.
   */
  function ParseFrom(argv: seq<string>, i: nat, cfg: Config): (r: Result<Config, ArgError>)
    ensures r.Err? && r.error.MissingValue? ==> i < |argv| && argv[|argv| - 1] == r.error.flag && IsFlag(r.error.flag)
    ensures r.Err? && r.error.NotAnInteger? ==> exists j :: i < j < |argv| && argv[j] == r.error.token
    decreases |argv| - i
  {
    if i >= |argv| then Ok(cfg)
    else if IsFlag(argv[i]) then
      if i + 1 >= |argv| then Err(MissingValue(argv[i]))
      else
        match Apply(cfg, argv[i], argv[i + 1])
        case Err(e) => Err(e)
        case Ok(c) => ParseFrom(argv, i + 2, c)
    else ParseFrom(argv, i + 1, cfg)
  }

  /** The argument loop of the main program, starting after the script name. */
  method ParseArgs(argv: seq<string>) returns (r: Result<Config, ArgError>)
    ensures r == ParseFrom(argv, 1, Defaults())
  {
    var cfg := Defaults();
    var i := 1;
    while i < |argv|
      invariant 1 <= i
      invariant ParseFrom(argv, i, cfg) == ParseFrom(argv, 1, Defaults())
      decreases |argv| - i
    {
      match argv[i]
      case "-s" =>
        if i + 1 >= |argv| { return Err(MissingValue("-s")); }
        cfg := cfg.(switchIp := argv[i + 1]);
        i := i + 2;
      case "-t" =>
        if i + 1 >= |argv| { return Err(MissingValue("-t")); }
        cfg := cfg.(platformIp := argv[i + 1]);
        i := i + 2;
      case "-l" =>
        if i + 1 >= |argv| { return Err(MissingValue("-l")); }
        var n := ParseInt(argv[i + 1]);
        if n.None? { return Err(NotAnInteger(argv[i + 1])); }
        cfg := cfg.(loops := n.value);
        i := i + 2;
      case "-d" =>
        if i + 1 >= |argv| { return Err(MissingValue("-d")); }
        var n := ParseInt(argv[i + 1]);
        if n.None? { return Err(NotAnInteger(argv[i + 1])); }
        cfg := cfg.(waitForFullBoot := n.value);
        i := i + 2;
      case _ =>
        i := i + 1;
    }
    return Ok(cfg);
  }

  // ---- properties of the loop ------------------------------------------------

  /**
   * Parsing a command line in two parts: once the first part parses from `i`
   * (the loop then stops exactly at its end), the rest is parsed from there
   * with the settings the first part produced.
   */
  lemma {:induction false} ParseSplit(a: seq<string>, b: seq<string>, i: nat, cfg: Config)
    requires i <= |a| && ParseFrom(a, i, cfg).Ok?
    ensures ParseFrom(a + b, i, cfg) == ParseFrom(a + b, |a|, ParseFrom(a, i, cfg).value)
    decreases |a| - i
  {
    if i < |a| {
      assert (a + b)[i] == a[i];
      if IsFlag(a[i]) {
        assert (a + b)[i + 1] == a[i + 1];
        ParseSplit(a, b, i + 2, Apply(cfg, a[i], a[i + 1]).value);
      } else {
        ParseSplit(a, b, i + 1, cfg);
      }
    }
  }

  /** A flag given last, with its value, overrides whatever came before it. */
  lemma LaterFlagOverrides(a: seq<string>, flag: string, value: string)
    requires |a| >= 1 && IsFlag(flag) && ParseFrom(a, 1, Defaults()).Ok?
    ensures ParseFrom(a + [flag, value], 1, Defaults()) == Apply(ParseFrom(a, 1, Defaults()).value, flag, value)
  {
    ParseSplit(a, [flag, value], 1, Defaults());
    var c := ParseFrom(a, 1, Defaults()).value;
    var full := a + [flag, value];
    assert full[|a|] == flag && full[|a| + 1] == value;
    if Apply(c, flag, value).Ok? {
      assert ParseFrom(full, |a| + 2, Apply(c, flag, value).value) == Apply(c, flag, value);
    }
  }

  /** Parsing from a position depends only on the tokens from there on. */
  lemma {:induction false} ParseSuffix(p: seq<string>, s: seq<string>, j: nat, cfg: Config)
    requires j <= |s|
    ensures ParseFrom(p + s, |p| + j, cfg) == ParseFrom(s, j, cfg)
    decreases |s| - j
  {
    if j < |s| {
      assert (p + s)[|p| + j] == s[j];
      if IsFlag(s[j]) {
        if j + 1 < |s| {
          assert (p + s)[|p| + j + 1] == s[j + 1];
          var r := Apply(cfg, s[j], s[j + 1]);
          if r.Ok? {
            ParseSuffix(p, s, j + 2, r.value);
          }
        }
      } else {
        ParseSuffix(p, s, j + 1, cfg);
      }
    }
  }

  /** A token that is not one of the four flags, standing where a flag could, is skipped and changes nothing. */
  lemma NonFlagIgnored(a: seq<string>, t: string, b: seq<string>)
    requires |a| >= 1 && !IsFlag(t) && ParseFrom(a, 1, Defaults()).Ok?
    ensures ParseFrom(a + [t] + b, 1, Defaults()) == ParseFrom(a + b, 1, Defaults())
  {
    var c := ParseFrom(a, 1, Defaults()).value;
    ParseSplit(a, [t] + b, 1, Defaults());
    ParseSplit(a, b, 1, Defaults());
    assert a + [t] + b == a + ([t] + b) == (a + [t]) + b;
    assert (a + ([t] + b))[|a|] == t;
    ParseSuffix(a + [t], b, 0, c);
    ParseSuffix(a, b, 0, c);
  }

  /** A flag in last position has no value to read: parsing fails on that flag. */
  lemma TrailingFlagFails(a: seq<string>, flag: string)
    requires |a| >= 1 && IsFlag(flag) && ParseFrom(a, 1, Defaults()).Ok?
    ensures ParseFrom(a + [flag], 1, Defaults()) == Err(MissingValue(flag))
  {
    ParseSplit(a, [flag], 1, Defaults());
    assert (a + [flag])[|a|] == flag;
  }

  /** The setting a flag controls is the same in two configurations. */
  predicate SameSetting(c: Config, d: Config, flag: string) {
    match flag
    case "-s" => c.switchIp == d.switchIp
    case "-t" => c.platformIp == d.platformIp
    case "-l" => c.loops == d.loops
    case "-d" => c.waitForFullBoot == d.waitForFullBoot
    case _ => true
  }

  /** A setting whose flag never appears on the command line keeps the value it started with. */
  lemma {:induction false} UnmentionedKeeps(argv: seq<string>, i: nat, cfg: Config, flag: string)
    requires IsFlag(flag)
    requires forall j :: i <= j < |argv| ==> argv[j] != flag
    requires ParseFrom(argv, i, cfg).Ok?
    ensures SameSetting(ParseFrom(argv, i, cfg).value, cfg, flag)
    decreases |argv| - i
  {
    if i < |argv| {
      if IsFlag(argv[i]) {
        var c := Apply(cfg, argv[i], argv[i + 1]).value;
        UnmentionedKeeps(argv, i + 2, c, flag);
      } else {
        UnmentionedKeeps(argv, i + 1, cfg, flag);
      }
    }
  }

  /**
   * The last occurrence of a flag decides its setting: a `flag value` pair
   * followed by tokens that never repeat `flag` sets what `Apply` sets for
   * that pair, wherever the pair stands, whatever the tokens around it.
   */
  lemma LastOccurrenceDecides(a: seq<string>, flag: string, value: string, b: seq<string>)
    requires |a| >= 1 && IsFlag(flag) && ParseFrom(a, 1, Defaults()).Ok?
    requires forall j :: 0 <= j < |b| ==> b[j] != flag
    ensures var c := ParseFrom(a, 1, Defaults()).value;
      var r := ParseFrom(a + [flag, value] + b, 1, Defaults());
      r.Ok? ==> Apply(c, flag, value).Ok? && SameSetting(r.value, Apply(c, flag, value).value, flag)
  {
    var c := ParseFrom(a, 1, Defaults()).value;
    var p := a + [flag, value];
    var full := p + b;
    assert full == a + ([flag, value] + b);
    ParseSplit(a, [flag, value] + b, 1, Defaults());
    assert full[|a|] == flag && full[|a| + 1] == value;
    if Apply(c, flag, value).Ok? {
      var d := Apply(c, flag, value).value;
      assert ParseFrom(full, |a|, c) == ParseFrom(full, |a| + 2, d);
      ParseSuffix(p, b, 0, d);
      assert ParseFrom(full, 1, Defaults()) == ParseFrom(b, 0, d);
      if ParseFrom(b, 0, d).Ok? {
        UnmentionedKeeps(b, 0, d, flag);
      }
    } else {
      assert ParseFrom(full, |a|, c).Err?;
    }
  }

  /** A token after a flag is its value, even when it looks like a flag itself. */
  lemma FlagValueIsNotAFlag()
    ensures ParseFrom(["boot_test_loop.py", "-s", "-l", "7"], 1, Defaults()) == Ok(Defaults().(switchIp := "-l"))
  {
  }

  /** A typical command line sets what it names and keeps the other defaults. */
  lemma TypicalCommandLine()
    ensures ParseFrom(["boot_test_loop.py", "-t", "10.0.0.2", "-x", "-l", "2", "-d", "90"], 1, Defaults())
            == Ok(Config(DefaultSwitchIp, "10.0.0.2", 2, 90))
  {
    assert ParseInt("2") == Some(2);
    assert ParseInt("90") == Some(90);
  }
}
