/**
 * The console's parameter registry: the families and parameters the
 * `set`, `show` and `help` commands resolve names against, the text
 * setter with its range and boolean checks, and the wildcard walk behind
 * `show`.
 */
module ConfigConsole {
  import opened Common
  import ConsoleParser

  datatype ParamType = Uint8 | Uint16 | Uint32 | Boolean | Enumerated | Str

  /** A parameter family: its name and its comma-separated aliases. */
  datatype Family = Family(name: string, aliases: string, order: nat)

  /** A parameter: short name, family, full path, type and bounds. */
  datatype Param = Param(name: string, family: string, fullPath: string, ptype: ParamType, min: u32, max: u32)

  /** The value union handed to a setter or returned by a getter. */
  datatype Value = Num(n: nat) | Flag(b: bool) | Text(s: string)

  /** CONSOLE_FAMILIES */
  const Families: seq<Family> := [
    Family("keyer", "k", 1),
    Family("audio", "a,snd", 2),
    Family("hardware", "hw,gpio", 3),
    Family("timing", "t", 4),
    Family("system", "sys", 5),
    Family("leds", "led,l", 6),
    Family("wifi", "w,net", 7),
    Family("remote", "r,cwnet", 8)
  ]

  /** CONSOLE_PARAMS */
  const Params: seq<Param> := [
    Param("wpm", "keyer", "keyer.wpm", Uint16, 5, 100),
    Param("iambic_mode", "keyer", "keyer.iambic_mode", Enumerated, 0, 1),
    Param("memory_mode", "keyer", "keyer.memory_mode", Enumerated, 0, 3),
    Param("squeeze_mode", "keyer", "keyer.squeeze_mode", Enumerated, 0, 1),
    Param("weight", "keyer", "keyer.weight", Uint8, 33, 67),
    Param("mem_window_start_pct", "keyer", "keyer.mem_window_start_pct", Uint8, 0, 100),
    Param("mem_window_end_pct", "keyer", "keyer.mem_window_end_pct", Uint8, 0, 100),
    Param("sidetone_freq_hz", "audio", "audio.sidetone_freq_hz", Uint16, 400, 800),
    Param("sidetone_volume", "audio", "audio.sidetone_volume", Uint8, 1, 100),
    Param("fade_duration_ms", "audio", "audio.fade_duration_ms", Uint8, 1, 10),
    Param("gpio_dit", "hardware", "hardware.gpio_dit", Uint8, 0, 45),
    Param("gpio_dah", "hardware", "hardware.gpio_dah", Uint8, 0, 45),
    Param("gpio_tx", "hardware", "hardware.gpio_tx", Uint8, 0, 45),
    Param("ptt_tail_ms", "timing", "timing.ptt_tail_ms", Uint32, 50, 500),
    Param("tick_rate_hz", "timing", "timing.tick_rate_hz", Uint32, 1000, 10000),
    Param("debug_logging", "system", "system.debug_logging", Boolean, 0, 1),
    Param("callsign", "system", "system.callsign", Str, 0, 12),
    Param("ui_theme", "system", "system.ui_theme", Enumerated, 0, 3),
    Param("gpio_data", "leds", "leds.gpio_data", Uint8, 0, 48),
    Param("count", "leds", "leds.count", Uint8, 0, 32),
    Param("brightness", "leds", "leds.brightness", Uint8, 0, 100),
    Param("brightness_dim", "leds", "leds.brightness_dim", Uint8, 0, 50),
    Param("enabled", "wifi", "wifi.enabled", Boolean, 0, 1),
    Param("ssid", "wifi", "wifi.ssid", Str, 0, 32),
    Param("password", "wifi", "wifi.password", Str, 0, 64),
    Param("timeout_sec", "wifi", "wifi.timeout_sec", Uint16, 5, 120),
    Param("use_static_ip", "wifi", "wifi.use_static_ip", Boolean, 0, 1),
    Param("ip_address", "wifi", "wifi.ip_address", Str, 0, 16),
    Param("netmask", "wifi", "wifi.netmask", Str, 0, 16),
    Param("gateway", "wifi", "wifi.gateway", Str, 0, 16),
    Param("dns", "wifi", "wifi.dns", Str, 0, 16),
    Param("cwnet_enabled", "remote", "remote.cwnet_enabled", Boolean, 0, 1),
    Param("server_host", "remote", "remote.server_host", Str, 0, 64),
    Param("server_port", "remote", "remote.server_port", Uint16, 1, 65535),
    Param("username", "remote", "remote.username", Str, 0, 32)
  ]

  // ---------------------------------------------------------------------
  // Families: the name or one of the comma-separated aliases
  // ---------------------------------------------------------------------

  /** The alias list is copied into a 64-byte buffer before it is split. */
  const AliasCopyMax: nat := 63

  function AliasCopy(aliases: string): (r: string)
    ensures |r| <= AliasCopyMax && r <= aliases
  {
    if |aliases| <= AliasCopyMax then aliases else aliases[..AliasCopyMax]
  }

  /** How many characters precede the first comma. */
  function RunLen(s: string): (n: nat)
    ensures n <= |s| && (n < |s| ==> s[n] == ',')
    ensures forall k | 0 <= k < n :: s[k] != ','
  {
    if s == [] || s[0] == ',' then 0 else 1 + RunLen(s[1..])
  }

  /** strtok(s, ","): the non-empty comma-free runs of s, in order. */
  function Pieces(s: string): seq<string>
    decreases |s|
  {
    if s == [] then []
    else if s[0] == ',' then Pieces(s[1..])
    else
      var n := RunLen(s);
      [s[..n]] + Pieces(s[n..])
  }

  predicate CommaFree(w: string) { forall k | 0 <= k < |w| :: w[k] != ',' }

  /** Aliases written out as a list separated by single commas. */
  function Join(ws: seq<string>): string
  {
    if ws == [] then [] else if |ws| == 1 then ws[0] else ws[0] + [','] + Join(ws[1..])
  }

  lemma {:induction false} RunLenOfWord(w: string, rest: string)
    requires CommaFree(w) && (rest == [] || rest[0] == ',')
    ensures RunLen(w + rest) == |w|
    decreases |w|
  {
    if w != [] {
      assert (w + rest)[1..] == w[1..] + rest;
      RunLenOfWord(w[1..], rest);
    }
  }

  /** Splitting an alias list written with single commas gives back its aliases. */
  lemma {:induction false} PiecesOfJoin(ws: seq<string>)
    requires forall i | 0 <= i < |ws| :: ws[i] != [] && CommaFree(ws[i])
    ensures Pieces(Join(ws)) == ws
  {
    if |ws| == 1 {
      RunLenOfWord(ws[0], []);
      assert ws[0] + [] == ws[0];
      assert Join(ws)[|ws[0]|..] == [];
    } else if |ws| > 1 {
      var s := Join(ws);
      var tail := [','] + Join(ws[1..]);
      assert s == ws[0] + tail;
      RunLenOfWord(ws[0], tail);
      assert s[..|ws[0]|] == ws[0];
      assert s[|ws[0]|..] == tail;
      assert tail[1..] == Join(ws[1..]);
      PiecesOfJoin(ws[1..]);
    }
  }

  /** Whether a family answers to a name: its own name or one of its aliases. */
  predicate FamilyNamed(f: Family, name: string)
  {
    f.name == name || (f.aliases != [] && name in Pieces(AliasCopy(f.aliases)))
  }

  function FirstFamily(fs: seq<Family>, name: string, i: nat): (r: Option<nat>)
    requires i <= |fs|
    ensures r.Some? ==> (i <= r.value < |fs| && FamilyNamed(fs[r.value], name) &&
      forall j | i <= j < r.value :: !FamilyNamed(fs[j], name))
    ensures r.None? ==> forall j | i <= j < |fs| :: !FamilyNamed(fs[j], name)
    decreases |fs| - i
  {
    if i == |fs| then None
    else if FamilyNamed(fs[i], name) then Some(i)
    else FirstFamily(fs, name, i + 1)
  }

  /** config_find_family: the first family answering to the name, None for no name. */
  function FindFamily(fs: seq<Family>, name: Option<string>): (r: Option<nat>)
    ensures name.None? ==> r.None?
    ensures r.Some? ==> (name.Some? && r.value < |fs| && FamilyNamed(fs[r.value], name.value) &&
      forall j | 0 <= j < r.value :: !FamilyNamed(fs[j], name.value))
    ensures name.Some? && r.None? ==> forall j | 0 <= j < |fs| :: !FamilyNamed(fs[j], name.value)
  {
    if name.None? then None else FirstFamily(fs, name.value, 0)
  }

  /** Two aliases separated by a comma split into the two. */
  lemma PiecesOfPair(a: string, b: string)
    requires a != [] && b != [] && CommaFree(a) && CommaFree(b)
    ensures Pieces(a + "," + b) == [a, b]
  {
    PiecesOfJoin([a, b]);
    assert Join([a, b]) == a + "," + b by {
      assert Join([b]) == b;
    }
  }

  /** The keyer family's alias list, split as strtok splits it. */
  lemma KeyerAliases()
    ensures Pieces(AliasCopy(Families[0].aliases)) == ["k"]
  {
    PiecesOfJoin(["k"]);
  }

  /** The audio family's alias list, split as strtok splits it. */
  lemma AudioAliases()
    ensures Pieces(AliasCopy(Families[1].aliases)) == ["a", "snd"]
  {
    PiecesOfPair("a", "snd");
    assert Families[1].aliases == "a" + "," + "snd";
  }

  /** The hardware family's alias list, split as strtok splits it. */
  lemma HardwareAliases()
    ensures Pieces(AliasCopy(Families[2].aliases)) == ["hw", "gpio"]
  {
    PiecesOfPair("hw", "gpio");
    assert Families[2].aliases == "hw" + "," + "gpio";
  }

  /** "keyer" finds its own family. */
  lemma KeyerByName()
    ensures FindFamily(Families, Some("keyer")) == Some(0)
  {
    assert FamilyNamed(Families[0], "keyer");
  }

  /** The search stops at a family that answers to the name. */
  lemma FoundAt(name: string, i: nat)
    requires i < |Families| && FamilyNamed(Families[i], name)
    ensures FirstFamily(Families, name, i) == Some(i)
  {
  }

  /** The search passes over a family that does not answer to the name. */
  lemma PassOver(name: string, i: nat)
    requires i < |Families| && !FamilyNamed(Families[i], name)
    ensures FirstFamily(Families, name, i) == FirstFamily(Families, name, i + 1)
  {
  }

  /** Names of the hardware family that the keyer and audio families do not answer to. */
  lemma NotKeyerNorAudio(name: string)
    requires name == "hw" || name == "gpio"
    ensures !FamilyNamed(Families[0], name) && !FamilyNamed(Families[1], name)
  {
    KeyerAliases();
    AudioAliases();
  }

  /** "snd" finds the audio family through its second alias. */
  lemma AudioBySnd()
    ensures FindFamily(Families, Some("snd")) == Some(1)
  {
    KeyerAliases();
    AudioAliases();
    assert !FamilyNamed(Families[0], "snd");
    assert FamilyNamed(Families[1], "snd");
    FoundAt("snd", 1);
    PassOver("snd", 0);
  }

  /** "hw" finds the hardware family through its first alias. */
  lemma HardwareByHw()
    ensures FindFamily(Families, Some("hw")) == Some(2)
  {
    NotKeyerNorAudio("hw");
    HardwareAliases();
    assert FamilyNamed(Families[2], "hw");
    FoundAt("hw", 2);
    PassOver("hw", 1);
    PassOver("hw", 0);
  }

  /** "gpio" finds the hardware family through its second alias. */
  lemma HardwareByGpio()
    ensures FindFamily(Families, Some("gpio")) == Some(2)
  {
    NotKeyerNorAudio("gpio");
    HardwareAliases();
    assert FamilyNamed(Families[2], "gpio");
    FoundAt("gpio", 2);
    PassOver("gpio", 1);
    PassOver("gpio", 0);
  }

  // ---------------------------------------------------------------------
  // Parameters: full path or short name, first match wins
  // ---------------------------------------------------------------------

  predicate ParamNamed(p: Param, name: string)
  {
    p.fullPath == name || p.name == name
  }

  function FirstParam(ps: seq<Param>, name: string, i: nat): (r: Option<nat>)
    requires i <= |ps|
    ensures r.Some? ==> (i <= r.value < |ps| && ParamNamed(ps[r.value], name) &&
      forall j | i <= j < r.value :: !ParamNamed(ps[j], name))
    ensures r.None? ==> forall j | i <= j < |ps| :: !ParamNamed(ps[j], name)
    decreases |ps| - i
  {
    if i == |ps| then None
    else if ps[i].fullPath == name || ps[i].name == name then Some(i)
    else FirstParam(ps, name, i + 1)
  }

  /** config_find_param: the first parameter whose full path or short name is the name. */
  function FindParam(ps: seq<Param>, name: Option<string>): (r: Option<nat>)
    ensures name.None? ==> r.None?
    ensures r.Some? ==> (name.Some? && r.value < |ps| && ParamNamed(ps[r.value], name.value) &&
      forall j | 0 <= j < r.value :: !ParamNamed(ps[j], name.value))
    ensures name.Some? && r.None? ==> forall j | 0 <= j < |ps| :: !ParamNamed(ps[j], name.value)
  {
    if name.None? then None else FirstParam(ps, name.value, 0)
  }

  /** No full path repeats, and none is another entry's short name. */
  ghost predicate Unambiguous(ps: seq<Param>)
  {
    forall i, j | 0 <= i < |ps| && 0 <= j < |ps| && i != j ::
      ps[i].fullPath != ps[j].fullPath && ps[i].fullPath != ps[j].name
  }

  /** In an unambiguous registry every entry is found by its own full path. */
  lemma FullPathFindsItself(ps: seq<Param>, i: nat)
    requires Unambiguous(ps) && i < |ps|
    ensures FindParam(ps, Some(ps[i].fullPath)) == Some(i)
  {
    assert ParamNamed(ps[i], ps[i].fullPath);
  }

  /** The registry's first entry answers to its short name and to its full path. */
  lemma WpmLookups()
    ensures FindParam(Params, Some("wpm")) == Some(0)
    ensures FindParam(Params, Some("keyer.wpm")) == Some(0)
  {
    assert ParamNamed(Params[0], "wpm") && ParamNamed(Params[0], "keyer.wpm");
  }

  // ---------------------------------------------------------------------
  // strtoul(value, NULL, 0) on a 32-bit unsigned long
  // ---------------------------------------------------------------------

  const ULongMax: nat := U32 - 1

  function DigitOf(c: char): nat
  {
    if '0' <= c <= '9' then c as nat - '0' as nat
    else if 'a' <= c <= 'z' then c as nat - 'a' as nat + 10
    else if 'A' <= c <= 'Z' then c as nat - 'A' as nat + 10
    else 36
  }

  predicate IsDigitIn(base: nat, c: char) { DigitOf(c) < base }

  /** How many leading characters are digits of the base. */
  function DigitRun(base: nat, s: string): (n: nat)
    ensures n <= |s|
  {
    if s == [] || !IsDigitIn(base, s[0]) then 0 else 1 + DigitRun(base, s[1..])
  }

  /** The value of a digit string, most significant digit first. */
  function DigitsValue(base: nat, ds: string): nat
  {
    if ds == [] then 0 else DigitsValue(base, ds[..|ds| - 1]) * base + DigitOf(ds[|ds| - 1])
  }

  /** Whitespace, then an optional sign, are skipped before the digits. */
  function SkipSpace(s: string): (r: string)
    ensures r <= s || |r| < |s|
    ensures r != [] ==> !ConsoleParser.IsSpace(r[0])
  {
    if s != [] && ConsoleParser.IsSpace(s[0]) then SkipSpace(s[1..]) else s
  }

  /** Base 0: "0x" before a hex digit selects 16, a leading 0 selects 8, anything else 10. */
  function BaseAndDigits(u: string): (r: (nat, string))
    ensures r.0 in {8, 10, 16} && |r.1| <= |u|
  {
    if |u| >= 3 && u[0] == '0' && (u[1] == 'x' || u[1] == 'X') && IsDigitIn(16, u[2]) then (16, u[2..])
    else if u != [] && u[0] == '0' then (8, u)
    else (10, u)
  }

  function Strtoul(s: string): (r: nat)
    ensures r <= ULongMax
  {
    var t := SkipSpace(s);
    var neg := t != [] && t[0] == '-';
    var u := if t != [] && (t[0] == '-' || t[0] == '+') then t[1..] else t;
    var (base, digits) := BaseAndDigits(u);
    var v := DigitsValue(base, digits[..DigitRun(base, digits)]);
    if v > ULongMax then ULongMax
    else if neg then (U32 - v) % U32
    else v
  }

  /** How `%u` writes a number. */
  function Decimal(n: nat): (s: string)
    ensures s != [] && forall k | 0 <= k < |s| :: '0' <= s[k] <= '9'
    ensures n > 0 ==> s[0] != '0'
  {
    if n < 10 then [('0' as nat + n) as char] else Decimal(n / 10) + [('0' as nat + n % 10) as char]
  }

  lemma {:induction false} DecimalValue(n: nat)
    ensures DigitsValue(10, Decimal(n)) == n
  {
    if n >= 10 {
      var s := Decimal(n);
      assert s[..|s| - 1] == Decimal(n / 10);
      DecimalValue(n / 10);
    }
  }

  lemma {:induction false} DecimalRun(base: nat, s: string)
    requires forall k | 0 <= k < |s| :: IsDigitIn(base, s[k])
    ensures DigitRun(base, s) == |s|
    decreases |s|
  {
    if s != [] {
      DecimalRun(base, s[1..]);
    }
  }

  /** strtoul reads back what `%u` writes. */
  lemma StrtoulReadsDecimal(n: nat)
    requires n <= ULongMax
    ensures Strtoul(Decimal(n)) == n
  {
    var s := Decimal(n);
    assert SkipSpace(s) == s;
    DecimalValue(n);
    if n == 0 {
      assert s == "0";
      assert BaseAndDigits(s) == (8, s);
      DecimalRun(8, s);
      assert s[..DigitRun(8, s)] == s;
      assert s[..0] == [];
      assert DigitsValue(8, s) == 0;
    } else {
      assert BaseAndDigits(s) == (10, s);
      assert forall k | 0 <= k < |s| :: IsDigitIn(10, s[k]);
      DecimalRun(10, s);
      assert s[..DigitRun(10, s)] == s;
    }
  }

  /** A "0x" prefix selects hexadecimal. */
  lemma StrtoulHex()
    ensures Strtoul("0x1F") == 31
  {
    assert SkipSpace("0x1F") == "0x1F";
    assert BaseAndDigits("0x1F") == (16, "1F");
    assert DigitRun(16, "1F") == 2;
    assert "1F"[..2] == "1F" && "1F"[..1] == "1" && "1"[..0] == [];
    assert DigitsValue(16, "1") == 1;
    assert DigitsValue(16, "1F") == 31;
  }

  /** A leading 0 selects octal. */
  lemma StrtoulOctal()
    ensures Strtoul("010") == 8
  {
    assert SkipSpace("010") == "010";
    assert BaseAndDigits("010") == (8, "010");
    assert DigitRun(8, "010") == 3;
    assert "010"[..3] == "010" && "010"[..2] == "01" && "01"[..1] == "0" && "0"[..0] == [];
    assert DigitsValue(8, "0") == 0;
    assert DigitsValue(8, "01") == 1;
    assert DigitsValue(8, "010") == 8;
  }

  /** Leading blanks are skipped and reading stops at the first character that is no digit. */
  lemma StrtoulStopsAtJunk()
    ensures Strtoul(" 30wpm") == 30
  {
    assert SkipSpace(" 30wpm") == "30wpm";
    assert BaseAndDigits("30wpm") == (10, "30wpm");
    assert DigitRun(10, "30wpm") == 2;
    assert "30wpm"[..2] == "30" && "30"[..1] == "3" && "3"[..0] == [];
  }

  /** Text with no digits reads as 0. */
  lemma StrtoulNoDigits()
    ensures Strtoul("abc") == 0
  {
    assert SkipSpace("abc") == "abc";
    assert DigitRun(10, "abc") == 0;
  }

  /** A minus sign negates modulo 2^32: "-1" reads as the largest unsigned long. */
  lemma StrtoulNegative()
    ensures Strtoul("-1") == ULongMax
  {
    assert SkipSpace("-1") == "-1";
    assert "-1"[1..] == "1";
    assert BaseAndDigits("1") == (10, "1");
    assert DigitRun(10, "1") == 1;
    assert "1"[..1] == "1" && "1"[..0] == [];
  }

  // ---------------------------------------------------------------------
  // config_set_param_str and config_get_param_str
  // ---------------------------------------------------------------------

  predicate IsNumeric(t: ParamType) { t == Uint8 || t == Uint16 || t == Uint32 || t == Enumerated }

  /** The width of the union member a numeric type is stored in. */
  function Width(t: ParamType): (w: nat)
    ensures w > 0
  {
    match t
    case Uint8 => U8
    case Enumerated => U8
    case Uint16 => U16
    case _ => U32
  }

  predicate TrueWord(s: string) { s == "true" || s == "1" || s == "on" || s == "yes" }
  predicate FalseWord(s: string) { s == "false" || s == "0" || s == "off" || s == "no" }

  /**
   * config_set_param_str: -1 and no setter call for an unknown name or a
   * missing value; -2 for a number outside [min, max]; -3 for a word that
   * is no boolean; otherwise 0 and the value handed to the setter.
   */
  function SetParamStr(ps: seq<Param>, name: Option<string>, value: Option<string>): (r: (int, Option<Value>))
    ensures r.0 == 0 <==> r.1.Some?
    ensures r.0 == -1 <==> value.None? || FindParam(ps, name).None?
    ensures value.Some? && FindParam(ps, name).Some? ==>
      var p := ps[FindParam(ps, name).value];
      var n := Strtoul(value.value);
      (IsNumeric(p.ptype) ==>
        (r.0 == -2 <==> (n < p.min || n > p.max)) &&
        (r.0 == 0 ==> r.1 == Some(Num(n % Width(p.ptype))))) &&
      (p.ptype == Boolean ==>
        (r.0 == -3 <==> !TrueWord(value.value) && !FalseWord(value.value)) &&
        (r.0 == 0 ==> r.1 == Some(Flag(TrueWord(value.value))))) &&
      (p.ptype == Str ==> r == (0, Some(Text(value.value))))
  {
    var i := FindParam(ps, name);
    if i.None? || value.None? then (-1, None)
    else
      var p := ps[i.value];
      var s := value.value;
      match p.ptype
      case Boolean =>
        if TrueWord(s) then (0, Some(Flag(true)))
        else if FalseWord(s) then (0, Some(Flag(false)))
        else (-3, None)
      case Str => (0, Some(Text(s)))
      case _ =>
        var n := Strtoul(s);
        if n < p.min || n > p.max then (-2, None)
        else (0, Some(Num(n % Width(p.ptype))))
  }

  /** A boolean parameter takes the four words for true and the four for false, and nothing else, case included. */
  lemma BooleanWords(ps: seq<Param>, name: string)
    requires FindParam(ps, Some(name)).Some? && ps[FindParam(ps, Some(name)).value].ptype == Boolean
    ensures forall w | w in ["true", "1", "on", "yes"] :: SetParamStr(ps, Some(name), Some(w)) == (0, Some(Flag(true)))
    ensures forall w | w in ["false", "0", "off", "no"] :: SetParamStr(ps, Some(name), Some(w)) == (0, Some(Flag(false)))
    ensures SetParamStr(ps, Some(name), Some("True")) == (-3, None)
    ensures SetParamStr(ps, Some(name), Some("")) == (-3, None)
  {
  }

  /** Whether a getter's value is the union member its type reads. */
  predicate Fits(t: ParamType, v: Value)
  {
    if IsNumeric(t) then v.Num? && v.n < Width(t) else if t == Boolean then v.Flag? else v.Text?
  }

  /** How `%u`, `%lu` and `%s` render a value of the type. */
  function Format(t: ParamType, v: Value): string
    requires Fits(t, v)
  {
    if IsNumeric(t) then Decimal(v.n)
    else if t == Boolean then (if v.b then "true" else "false")
    else v.s
  }

  /**
   * config_get_param_str: -1 for an unknown name or an empty buffer;
   * otherwise 0 and the current value rendered, cut to fit len - 1
   * characters; `current` is what the parameter's getter returns.
   */
  function GetParamStr(ps: seq<Param>, name: Option<string>, current: Value, len: nat): (r: (int, string))
    requires FindParam(ps, name).Some? ==> Fits(ps[FindParam(ps, name).value].ptype, current)
    ensures r.0 == -1 <==> FindParam(ps, name).None? || len == 0
    ensures r.0 == -1 ==> r.1 == []
    ensures r.0 == 0 ==> |r.1| < len && r.1 <= Format(ps[FindParam(ps, name).value].ptype, current)
  {
    var i := FindParam(ps, name);
    if i.None? || len == 0 then (-1, [])
    else
      var text := Format(ps[i.value].ptype, current);
      (0, if |text| < len then text else text[..len - 1])
  }

  /**
   * Writing back what was read gives the setter the same value, whenever
   * the value lies in the parameter's range and the buffer holds it whole.
   */
  lemma SetWhatWasGot(ps: seq<Param>, name: string, current: Value, len: nat)
    requires FindParam(ps, Some(name)).Some?
    requires var p := ps[FindParam(ps, Some(name)).value];
      Fits(p.ptype, current) && (IsNumeric(p.ptype) ==> p.min <= current.n <= p.max) &&
      |Format(p.ptype, current)| < len
    ensures SetParamStr(ps, Some(name), Some(GetParamStr(ps, Some(name), current, len).1)) == (0, Some(current))
  {
    var p := ps[FindParam(ps, Some(name)).value];
    var text := Format(p.ptype, current);
    assert GetParamStr(ps, Some(name), current, len).1 == text;
    if IsNumeric(p.ptype) {
      StrtoulReadsDecimal(current.n);
      ModUnique(current.n, 0, current.n, Width(p.ptype));
    } else if p.ptype == Boolean {
      assert TrueWord(text) <==> current.b;
      assert !current.b ==> FalseWord(text);
    }
  }

  /** The registry's wpm entry: a 16-bit number from 5 to 100. */
  lemma WpmEntry()
    ensures FindParam(Params, Some("wpm")) == Some(0) && FindParam(Params, Some("keyer.wpm")) == Some(0)
    ensures Params[0].ptype == Uint16 && Params[0].min == 5 && Params[0].max == 100
  {
    WpmLookups();
  }

  /** Setting 30 wpm hands 30 to the setter. */
  lemma SetWpm30()
    ensures SetParamStr(Params, Some("wpm"), Some("30")) == (0, Some(Num(30)))
  {
    WpmEntry();
    assert Decimal(30) == "30" by {
      assert Decimal(3) == "3";
    }
    StrtoulReadsDecimal(30);
    assert Strtoul("30") == 30;
    assert 30 % Width(Uint16) == 30;
  }

  /** 200 words per minute is out of range. */
  lemma SetWpm200()
    ensures SetParamStr(Params, Some("wpm"), Some("200")).0 == -2
  {
    WpmEntry();
    assert Decimal(200) == "200" by {
      assert Decimal(20) == "20" by {
        assert Decimal(2) == "2";
      }
    }
    StrtoulReadsDecimal(200);
  }

  /** "-1" wraps to the largest unsigned long and is out of range too. */
  lemma SetWpmMinusOne()
    ensures SetParamStr(Params, Some("keyer.wpm"), Some("-1")).0 == -2
  {
    WpmEntry();
    StrtoulNegative();
  }

  // ---------------------------------------------------------------------
  // config_foreach_matching
  // ---------------------------------------------------------------------

  /** The index of the first '*', if any. */
  function StarAt(s: string): (r: Option<nat>)
    ensures r.Some? ==> r.value < |s| && s[r.value] == '*' && forall k | 0 <= k < r.value :: s[k] != '*'
    ensures r.None? ==> forall k | 0 <= k < |s| :: s[k] != '*'
  {
    if s == [] then None
    else if s[0] == '*' then Some(0)
    else match StarAt(s[1..]) case None => None case Some(k) => Some(k + 1)
  }

  /** The prefix buffer holds 63 characters. */
  const PrefixMax: nat := 63

  /** Everything before the star, cut to 63 characters, with one trailing '.' removed. */
  function Prefix(pattern: string, star: nat): (r: string)
    requires star <= |pattern|
    ensures |r| <= PrefixMax && r <= pattern
  {
    var cut := if star > PrefixMax then PrefixMax else star;
    var pre := pattern[..cut];
    if pre != [] && pre[|pre| - 1] == '.' then pre[..|pre| - 1] else pre
  }

  /** '*' only reaches entries directly under the prefix: past one optional '.', no further '.'. */
  predicate DirectChild(path: string, prefix: string)
    requires prefix <= path
  {
    var rest := path[|prefix|..];
    var tail := if rest != [] && rest[0] == '.' then rest[1..] else rest;
    '.' !in tail
  }

  /** Whether a wildcard walk with this prefix visits the entry. */
  predicate Selected(p: Param, prefix: string, recursive: bool)
  {
    prefix == [] || (prefix <= p.fullPath && (recursive || DirectChild(p.fullPath, prefix)))
  }

  /** The entries below n that the walk visits, in table order. */
  function SelectedBelow(ps: seq<Param>, prefix: string, recursive: bool, n: nat): seq<nat>
    requires n <= |ps|
  {
    if n == 0 then []
    else SelectedBelow(ps, prefix, recursive, n - 1) + (if Selected(ps[n - 1], prefix, recursive) then [n - 1] else [])
  }

  /** What the pattern visits: the exact lookup without a star, the wildcard walk with one. */
  function Visits(ps: seq<Param>, pattern: Option<string>): seq<nat>
  {
    if pattern.None? then []
    else match StarAt(pattern.value)
      case None => (match FindParam(ps, pattern) case Some(i) => [i] case None => [])
      case Some(star) =>
        var s := pattern.value;
        SelectedBelow(ps, Prefix(s, star), star + 1 < |s| && s[star + 1] == '*', |ps|)
  }

  /** The walk visits exactly the selected entries. */
  lemma {:induction false} SelectedBelowMembers(ps: seq<Param>, prefix: string, recursive: bool, n: nat)
    requires n <= |ps|
    ensures forall k: nat :: k in SelectedBelow(ps, prefix, recursive, n) <==> k < n && Selected(ps[k], prefix, recursive)
  {
    if n > 0 {
      SelectedBelowMembers(ps, prefix, recursive, n - 1);
      var before := SelectedBelow(ps, prefix, recursive, n - 1);
      var sel := Selected(ps[n - 1], prefix, recursive);
      var last: seq<nat> := if sel then [n - 1] else [];
      assert SelectedBelow(ps, prefix, recursive, n) == before + last;
      forall k: nat
        ensures k in before + last <==> k < n && Selected(ps[k], prefix, recursive)
      {
        if k == n - 1 {
          assert k !in before && (k in last <==> sel);
        } else {
          assert k !in last;
        }
      }
    }
  }

  /** The walk visits each entry at most once, in table order. */
  lemma {:induction false} SelectedBelowOrdered(ps: seq<Param>, prefix: string, recursive: bool, n: nat)
    requires n <= |ps|
    ensures forall a, b | 0 <= a < b < |SelectedBelow(ps, prefix, recursive, n)| ::
      SelectedBelow(ps, prefix, recursive, n)[a] < SelectedBelow(ps, prefix, recursive, n)[b]
  {
    if n > 0 {
      SelectedBelowOrdered(ps, prefix, recursive, n - 1);
      SelectedBelowMembers(ps, prefix, recursive, n - 1);
      var before := SelectedBelow(ps, prefix, recursive, n - 1);
      assert forall a | 0 <= a < |before| :: before[a] in before;
    }
  }

  /** Without a star the pattern names one entry, as find_param resolves it. */
  lemma ExactWithoutStar(ps: seq<Param>, pattern: string)
    requires forall k | 0 <= k < |pattern| :: pattern[k] != '*'
    ensures Visits(ps, Some(pattern)) == if FindParam(ps, Some(pattern)).Some? then [FindParam(ps, Some(pattern)).value] else []
  {
  }

  /** An empty prefix ("*", "**", ".*") visits every entry in order. */
  lemma {:induction false} EmptyPrefixVisitsAll(ps: seq<Param>, recursive: bool, n: nat)
    requires n <= |ps|
    ensures SelectedBelow(ps, [], recursive, n) == seq(n, k => k)
  {
    if n > 0 {
      EmptyPrefixVisitsAll(ps, recursive, n - 1);
    }
  }

  /** A trailing '.' before the star is dropped: "keyer.*" walks with the prefix "keyer". */
  lemma TrailingDotStripped(family: string)
    requires family != [] && |family| < PrefixMax && forall k | 0 <= k < |family| :: family[k] != '*'
    ensures Prefix(family + ".*", |family| + 1) == family
    ensures Prefix(family + ".**", |family| + 1) == family
  {
    assert (family + ".*")[..|family| + 1] == family + ".";
    assert (family + ".**")[..|family| + 1] == family + ".";
  }

  predicate Plain(w: string) { '.' !in w && '*' !in w }

  /**
   * "<prefix>.*" visits the entries whose full path starts with the prefix
   * and has no further '.' after it; "<prefix>.**" every entry whose full
   * path starts with the prefix.
   */
  lemma StarAndDoubleStar(ps: seq<Param>, family: string, k: nat)
    requires family != [] && |family| < PrefixMax && Plain(family)
    ensures k in Visits(ps, Some(family + ".*")) <==> k < |ps| && family <= ps[k].fullPath && DirectChild(ps[k].fullPath, family)
    ensures k in Visits(ps, Some(family + ".**")) <==> k < |ps| && family <= ps[k].fullPath
  {
    var one, two := family + ".*", family + ".**";
    assert one[|family|] == '.' && one[|family| + 1] == '*';
    assert StarAt(one) == Some(|family| + 1) by {
      assert forall j | 0 <= j < |family| + 1 :: one[j] != '*';
    }
    assert two[|family|] == '.' && two[|family| + 1] == '*' && two[|family| + 2] == '*';
    assert StarAt(two) == Some(|family| + 1) by {
      assert forall j | 0 <= j < |family| + 1 :: two[j] != '*';
    }
    TrailingDotStripped(family);
    SelectedBelowMembers(ps, family, false, |ps|);
    SelectedBelowMembers(ps, family, true, |ps|);
  }

  /** The generated registry names every entry "<family>.<name>", neither part holding a '.' or a '*'. */
  ghost predicate PathsUnderFamilies(ps: seq<Param>)
  {
    forall k | 0 <= k < |ps| :: ps[k].fullPath == ps[k].family + "." + ps[k].name && Plain(ps[k].family) && Plain(ps[k].name)
  }

  /** For such a path, the '*' walk with a family's name reaches exactly that family's entries. */
  lemma DirectChildOfFamily(p: Param, family: string)
    requires p.fullPath == p.family + "." + p.name && Plain(p.family) && Plain(p.name) && Plain(family)
    ensures (family <= p.fullPath && DirectChild(p.fullPath, family)) <==> p.family == family
  {
    var path := p.fullPath;
    assert path[|p.family|] == '.';
    if p.family == family {
      assert path[|family|..] == "." + p.name;
    } else if family <= path && |family| < |p.family| {
      var rest := path[|family|..];
      assert rest == p.family[|family|..] + "." + p.name;
      assert rest[0] == p.family[|family|] && rest[0] != '.' by {
        assert p.family[|family|] in p.family;
      }
      assert rest[|p.family| - |family|] == '.';
    }
  }

  /** In a registry of such paths, "<family>.*" visits exactly that family's entries. */
  lemma FamilyStar(ps: seq<Param>, family: string, k: nat)
    requires PathsUnderFamilies(ps) && family != [] && |family| < PrefixMax && Plain(family)
    ensures k in Visits(ps, Some(family + ".*")) <==> k < |ps| && ps[k].family == family
  {
    StarAndDoubleStar(ps, family, k);
    if k < |ps| {
      DirectChildOfFamily(ps[k], family);
    }
  }

  /** The test the walk applies to one entry. */
  method Matches(p: Param, prefix: string, recursive: bool) returns (visit: bool)
    ensures visit == Selected(p, prefix, recursive)
  {
    if prefix == [] {
      return true;
    }
    if !(prefix <= p.fullPath) {
      return false;
    }
    if recursive {
      return true;
    }
    var rest := p.fullPath[|prefix|..];
    if rest != [] && rest[0] == '.' {
      rest := rest[1..];
    }
    return '.' !in rest;
  }

  /** The wildcard walk over the whole registry, in table order. */
  method Walk(ps: seq<Param>, prefix: string, recursive: bool) returns (visited: seq<nat>)
    ensures visited == SelectedBelow(ps, prefix, recursive, |ps|)
  {
    visited := [];
    var i := 0;
    while i < |ps|
      invariant i <= |ps|
      invariant visited == SelectedBelow(ps, prefix, recursive, i)
    {
      var visit := Matches(ps[i], prefix, recursive);
      if visit {
        visited := visited + [i];
      }
      i := i + 1;
    }
  }

  /** config_foreach_matching: the visitor is called on each visited entry in turn; the calls are returned. */
  method ForeachMatching(ps: seq<Param>, pattern: Option<string>) returns (visited: seq<nat>)
    ensures visited == Visits(ps, pattern)
  {
    visited := [];
    if pattern.None? {
      return;
    }
    var s := pattern.value;
    var star := StarAt(s);
    if star.None? {
      var p := FindParam(ps, pattern);
      if p.Some? {
        visited := [p.value];
      }
      return;
    }
    var prefix := Prefix(s, star.value);
    var recursive := star.value + 1 < |s| && s[star.value + 1] == '*';
    visited := Walk(ps, prefix, recursive);
  }

  /** The family names of the table. */
  const FamilyNames: seq<string> := ["keyer", "audio", "hardware", "timing", "system", "leds", "wifi", "remote"]

  /** As written, "hw.*" visits nothing: the alias is not expanded, and no family's name starts with "hw". */
  lemma AliasPatternVisitsNothing(ps: seq<Param>)
    requires PathsUnderFamilies(ps) && forall k | 0 <= k < |ps| :: ps[k].family in FamilyNames
    ensures Visits(ps, Some("hw.*")) == []
  {
    if Visits(ps, Some("hw.*")) != [] {
      var k := Visits(ps, Some("hw.*"))[0];
      assert "hw" + ".*" == "hw.*";
      FamilyStar(ps, "hw", k);
    }
  }

  /** How many characters precede the first '.'. */
  function RunToDot(s: string): (n: nat)
    ensures n <= |s| && (n < |s| ==> s[n] == '.')
    ensures forall k | 0 <= k < n :: s[k] != '.'
  {
    if s == [] || s[0] == '.' then 0 else 1 + RunToDot(s[1..])
  }

  /**
   * The pattern with a leading family alias, one followed by a '.', replaced
   * by the family's name; a pattern without a '.' is kept.
   */
  function ExpandFamily(fs: seq<Family>, pattern: string): (r: string)
    ensures RunToDot(pattern) == |pattern| ==> r == pattern
    ensures FindFamily(fs, Some(pattern[..RunToDot(pattern)])).None? ==> r == pattern
    ensures RunToDot(pattern) < |pattern| && FindFamily(fs, Some(pattern[..RunToDot(pattern)])).Some? ==>
      r == fs[FindFamily(fs, Some(pattern[..RunToDot(pattern)])).value].name + pattern[RunToDot(pattern)..]
  {
    var n := RunToDot(pattern);
    if n == |pattern| then pattern
    else match FindFamily(fs, Some(pattern[..n]))
    case None => pattern
    case Some(i) => fs[i].name + pattern[n..]
  }

  /** cmd_show's pattern: its first argument, or "**" when there is none or it is empty. */
  function ShowPattern(arg: Option<string>): string
  {
    if arg.None? || arg.value == [] then "**" else arg.value
  }

  /**
   * `show` as documented: with no pattern or an empty one every entry is
   * shown, in table order; otherwise a family alias in front of the
   * wildcard stands for the family.
   */
  function ShowVisits(fs: seq<Family>, ps: seq<Param>, arg: Option<string>): (r: seq<nat>)
    ensures arg.None? || arg == Some([]) ==> r == seq(|ps|, k => k)
    ensures arg.Some? && arg.value != [] ==> r == Visits(ps, Some(ExpandFamily(fs, arg.value)))
  {
    var pattern := ShowPattern(arg);
    if pattern == "**" then
      assert RunToDot(pattern) == 2 && StarAt(pattern) == Some(0);
      assert Prefix(pattern, 0) == [];
      EmptyPrefixVisitsAll(ps, true, |ps|);
      Visits(ps, Some(ExpandFamily(fs, pattern)))
    else
      Visits(ps, Some(ExpandFamily(fs, pattern)))
  }

  /** "hw.*" expands to "hardware.*". */
  lemma HwExpands()
    ensures ExpandFamily(Families, "hw.*") == "hardware" + ".*"
  {
    HardwareByHw();
    assert RunToDot("hw.*") == 2;
    assert "hw.*"[..2] == "hw" && "hw.*"[2..] == ".*";
    assert Families[2].name == "hardware";
  }

  /** With the alias expanded, "hw.*" visits exactly the hardware entries. */
  lemma AliasPatternShowsFamily(ps: seq<Param>, k: nat)
    requires PathsUnderFamilies(ps)
    ensures k in ShowVisits(Families, ps, Some("hw.*")) <==> k < |ps| && ps[k].family == "hardware"
  {
    HwShowIsHardwareStar(ps);
    HardwareFamilyStar(ps, k);
  }

  /** "hardware.*" visits exactly the hardware entries of a registry of "family.name" paths. */
  lemma HardwareFamilyStar(ps: seq<Param>, k: nat)
    requires PathsUnderFamilies(ps)
    ensures k in Visits(ps, Some("hardware" + ".*")) <==> k < |ps| && ps[k].family == "hardware"
  {
    FamilyStar(ps, "hardware", k);
  }

  /** A registry path's first two characters: it starts with 'h' exactly for a hardware entry, and never has 'w' second. */
  predicate PathHead(p: Param, hardware: bool)
  {
    |p.fullPath| >= 2 && p.fullPath[1] != 'w' && (p.fullPath[0] == 'h' <==> hardware)
  }

  lemma PathHeadsFrom0()
    ensures forall k | 0 <= k < 9 :: PathHead(Params[k], false)
  {
  }

  lemma PathHeadsFrom9()
    ensures forall k | 9 <= k < 18 :: PathHead(Params[k], 10 <= k < 13)
  {
  }

  lemma PathHeadsFrom18()
    ensures forall k | 18 <= k < 27 :: PathHead(Params[k], false)
  {
  }

  lemma PathHeadsFrom27()
    ensures forall k | 27 <= k < |Params| :: PathHead(Params[k], false)
  {
  }

  /** Only the entries at 10, 11 and 12 start with 'h', and no entry has 'w' as its second character. */
  lemma RegistryPathHeads()
    ensures forall k | 0 <= k < |Params| :: PathHead(Params[k], 10 <= k < 13)
  {
    PathHeadsFrom0();
    PathHeadsFrom9();
    PathHeadsFrom18();
    PathHeadsFrom27();
  }

  /** An entry whose path lies directly under the family's name. */
  predicate DirectlyUnder(p: Param, family: string)
  {
    family <= p.fullPath && DirectChild(p.fullPath, family)
  }

  /** A path "<family>.<name>" whose name holds no '.' lies directly under the family. */
  lemma JoinedPathUnder(p: Param, family: string, name: string)
    requires p.fullPath == family + "." + name && '.' !in name
    ensures DirectlyUnder(p, family)
  {
    var path := p.fullPath;
    assert path[..|family|] == family;
    assert path[|family|..] == "." + name;
    assert ("." + name)[1..] == name;
  }

  lemma GpioDitUnderHardware()
    ensures DirectlyUnder(Params[10], "hardware")
  {
    var name: string := "gpio_dit";
    assert Params[10].fullPath == "hardware" + "." + name;
    assert forall i | 0 <= i < |name| :: name[i] != '.';
    JoinedPathUnder(Params[10], "hardware", name);
  }

  lemma GpioDahUnderHardware()
    ensures DirectlyUnder(Params[11], "hardware")
  {
    var name: string := "gpio_dah";
    assert Params[11].fullPath == "hardware" + "." + name;
    assert forall i | 0 <= i < |name| :: name[i] != '.';
    JoinedPathUnder(Params[11], "hardware", name);
  }

  lemma GpioTxUnderHardware()
    ensures DirectlyUnder(Params[12], "hardware")
  {
    var name: string := "gpio_tx";
    assert Params[12].fullPath == "hardware" + "." + name;
    assert forall i | 0 <= i < |name| :: name[i] != '.';
    JoinedPathUnder(Params[12], "hardware", name);
  }

  /** The '*' walk under "hardware" selects exactly the entries at 10, 11 and 12. */
  lemma HardwareSelected(k: nat)
    ensures k < |Params| && Selected(Params[k], "hardware", false) <==> 10 <= k < 13
  {
    if k < |Params| {
      var p := Params[k];
      var fam: string := "hardware";
      assert Selected(p, fam, false) == DirectlyUnder(p, fam);
      if fam <= p.fullPath {
        RegistryPathHeads();
        assert p.fullPath[0] == fam[0] == 'h';
        assert PathHead(p, 10 <= k < 13);
      }
      if k == 10 {
        GpioDitUnderHardware();
      } else if k == 11 {
        GpioDahUnderHardware();
      } else if k == 12 {
        GpioTxUnderHardware();
      }
    }
  }

  /** A strictly increasing sequence holding exactly lo..hi-1 is that range. */
  lemma {:induction false} IncreasingRange(s: seq<nat>, lo: nat, hi: nat)
    requires forall a, b | 0 <= a < b < |s| :: s[a] < s[b]
    requires lo <= hi && forall k: nat :: k in s <==> lo <= k < hi
    ensures s == seq(hi - lo, i => lo + i)
    decreases hi - lo
  {
    assert s == [] || s[0] in s;
    if lo < hi {
      assert lo in s && s[0] in s;
      assert forall i | 0 < i < |s| :: s[0] < s[i];
      assert s[0] == lo;
      var rest := s[1..];
      assert s == [lo] + rest;
      forall k: nat | k in rest
        ensures lo < k
      {
        var m :| 0 <= m < |rest| && rest[m] == k;
        assert s[m + 1] == k;
      }
      assert forall k: nat :: k in s <==> k == lo || k in rest;
      IncreasingRange(rest, lo + 1, hi);
    }
  }

  /** In the registry itself, "hw.*" as written visits nothing: no path starts with "hw". */
  lemma RegistryHwVisitsNothing()
    ensures Visits(Params, Some("hw.*")) == []
  {
    var pattern := "hw.*";
    assert StarAt(pattern) == Some(3);
    assert Prefix(pattern, 3) == "hw";
    var r := Visits(Params, Some(pattern));
    assert r == SelectedBelow(Params, "hw", false, |Params|);
    SelectedBelowMembers(Params, "hw", false, |Params|);
    RegistryPathHeads();
    assert forall k | 0 <= k < |Params| :: !Selected(Params[k], "hw", false) by {
      forall k | 0 <= k < |Params| && "hw" <= Params[k].fullPath
        ensures Params[k].fullPath[1] == 'w'
      {
      }
    }
    SelectedBelowOrdered(Params, "hw", false, |Params|);
    IncreasingRange(r, 0, 0);
  }

  /** "<family>.*" is the '*' walk with the family's name as prefix. */
  lemma FamilyStarWalk(ps: seq<Param>, family: string)
    requires family != [] && |family| < PrefixMax && Plain(family)
    ensures Visits(ps, Some(family + ".*")) == SelectedBelow(ps, family, false, |ps|)
  {
    var pattern := family + ".*";
    assert pattern[|family|] == '.' && pattern[|family| + 1] == '*';
    assert StarAt(pattern) == Some(|family| + 1) by {
      assert forall j | 0 <= j < |family| + 1 :: pattern[j] != '*';
    }
    TrailingDotStripped(family);
  }

  /** `show hw.*` visits what "hardware.*" visits, whatever the registry. */
  lemma HwShowIsHardwareStar(ps: seq<Param>)
    ensures ShowVisits(Families, ps, Some("hw.*")) == Visits(ps, Some("hardware" + ".*"))
  {
    HwExpands();
  }

  /** "hardware.*" is the '*' walk under "hardware", whatever the registry. */
  lemma HardwareStarWalk(ps: seq<Param>)
    ensures Visits(ps, Some("hardware" + ".*")) == SelectedBelow(ps, "hardware", false, |ps|)
  {
    FamilyStarWalk(ps, "hardware");
  }

  /** `show hw.*` is the '*' walk under "hardware", whatever the registry. */
  lemma HwShowWalksHardware(ps: seq<Param>)
    ensures ShowVisits(Families, ps, Some("hw.*")) == SelectedBelow(ps, "hardware", false, |ps|)
  {
    HwShowIsHardwareStar(ps);
    HardwareStarWalk(ps);
  }

  /** In the registry itself, the '*' walk under "hardware" visits the entries at 10, 11 and 12, in order. */
  lemma RegistryHardwareWalk()
    ensures SelectedBelow(Params, "hardware", false, |Params|) == [10, 11, 12]
  {
    var r := SelectedBelow(Params, "hardware", false, |Params|);
    SelectedBelowOrdered(Params, "hardware", false, |Params|);
    HardwareMembers();
    IncreasingRange(r, 10, 13);
  }

  /** The walk under "hardware" holds exactly the indices 10, 11 and 12. */
  lemma HardwareMembers()
    ensures forall k: nat :: k in SelectedBelow(Params, "hardware", false, |Params|) <==> 10 <= k < 13
  {
    SelectedBelowMembers(Params, "hardware", false, |Params|);
    forall k: nat
      ensures k in SelectedBelow(Params, "hardware", false, |Params|) <==> 10 <= k < 13
    {
      HardwareSelected(k);
    }
  }

  /** In the registry itself, `show hw.*` with the alias expanded shows the three hardware entries, in order. */
  lemma RegistryShowsHardware()
    ensures ShowVisits(Families, Params, Some("hw.*")) == [10, 11, 12]
  {
    HwShowWalksHardware(Params);
    RegistryHardwareWalk();
  }
}
