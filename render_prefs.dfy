/** Antialiasing preferences for text rendering: a profile for editor
    buffers and one for the rest of the UI, each starting from its defaults,
    overridden from environment variables and then from an optional
    configuration record (crates/gpui/src/render_prefs.rs). */
module RenderPrefs {
  import opened Wrappers
  import opened Text

  newtype u8 = x: int | 0 <= x < 0x100
  newtype u16 = x: int | 0 <= x < 0x1_0000

  datatype AntialiasingMode = Default | Binary | Reduced

  /** The four settings of a profile, as a value. */
  datatype ProfileValue = ProfileValue(mode: AntialiasingMode, binaryThreshold: u8,
                                       reducedLevels: u8, disableSubpixelPositioning: bool)

  const BufferDefaults := ProfileValue(Binary, 96, 4, true)
  const UiDefaults := ProfileValue(Default, 96, 4, false)

  /** The least and the greatest number of coverage levels in reduced mode. */
  const MinReducedLevels: u8 := 2
  const MaxReducedLevels: u8 := 8

  /** A profile's level count lies in the range reduced mode supports. */
  predicate LevelsInRange(p: ProfileValue) {
    MinReducedLevels <= p.reducedLevels <= MaxReducedLevels
  }

  /** Optional per-profile settings; an absent one leaves the profile as it is. */
  datatype ProfileConfig = ProfileConfig(mode: Option<string>, binaryThreshold: Option<u8>,
                                         reducedLevels: Option<u8>,
                                         disableSubpixelPositioning: Option<bool>)

  /** The configuration record: optional settings for each profile. */
  datatype AntialiasingConfig = AntialiasingConfig(buffer: Option<ProfileConfig>, ui: Option<ProfileConfig>)

  const DefaultAliases: set<string> := {"default", "aa", "antialias", "antialiasing"}
  const BinaryAliases: set<string> :=
    {"binary", "mono", "monochrome", "none", "off", "disable", "disabled", "noaa"}
  const ReducedAliases: set<string> := {"reduced", "low", "steps", "quantized", "quantised"}

  /** The mode a name stands for, ignoring surrounding whitespace and ASCII
      case; nothing for a name that is none of the aliases. */
  function ParseAntialiasingMode(value: string): (r: Option<AntialiasingMode>)
    ensures r == Some(Default) <==> ToLowerAscii(Trim(value)) in DefaultAliases
    ensures r == Some(Binary) <==> ToLowerAscii(Trim(value)) in BinaryAliases
    ensures r == Some(Reduced) <==> ToLowerAscii(Trim(value)) in ReducedAliases
  {
    var key := ToLowerAscii(Trim(value));
    if key in DefaultAliases then Some(Default)
    else if key in BinaryAliases then Some(Binary)
    else if key in ReducedAliases then Some(Reduced)
    else None
  }

  /** The alias sets do not overlap, so every alias names one mode. */
  lemma AliasSetsAreDisjoint()
    ensures DefaultAliases * BinaryAliases == {}
    ensures DefaultAliases * ReducedAliases == {}
    ensures BinaryAliases * ReducedAliases == {}
  {
  }

  /** Parsing does not depend on surrounding whitespace or on ASCII case:
      the text trimmed or lowercased parses to the same mode. */
  lemma ParseIgnoresWhitespaceAndCase(value: string)
    ensures ParseAntialiasingMode(Trim(value)) == ParseAntialiasingMode(value)
    ensures ParseAntialiasingMode(ToLowerAscii(value)) == ParseAntialiasingMode(value)
  {
    TrimIdempotent(value);
    LowerTrim(value);
    ToLowerAsciiIdempotent(Trim(value));
  }

  /** Every alias, written in any ASCII case and padded with whitespace,
      parses to its mode. */
  lemma AliasesParse(value: string, m: AntialiasingMode)
    requires ToLowerAscii(Trim(value)) in (match m
                                             case Default => DefaultAliases
                                             case Binary => BinaryAliases
                                             case Reduced => ReducedAliases)
    ensures ParseAntialiasingMode(value) == Some(m)
  {
    AliasSetsAreDisjoint();
  }

  /** `levels.clamp(2, 8)`. */
  function ClampReducedLevels(levels: u8): (r: u8)
    ensures MinReducedLevels <= r <= MaxReducedLevels
    ensures MinReducedLevels <= levels <= MaxReducedLevels ==> r == levels
    ensures levels < MinReducedLevels ==> r == MinReducedLevels
    ensures levels > MaxReducedLevels ==> r == MaxReducedLevels
  {
    if levels < MinReducedLevels then MinReducedLevels
    else if levels > MaxReducedLevels then MaxReducedLevels
    else levels
  }

  /** Clamping twice is clamping once. */
  lemma ClampIdempotent(levels: u8)
    ensures ClampReducedLevels(ClampReducedLevels(levels)) == ClampReducedLevels(levels)
  {
  }

  /** `str::parse::<u16>`: an optional '+', then one or more decimal digits
      whose value fits in 16 bits; no whitespace, no '-'. */
  function ParseU16(s: string): (r: Option<u16>)
    ensures var d := if |s| > 0 && s[0] == '+' then s[1..] else s;
      && (r.Some? <==> d != [] && AllDigits(d) && DecimalValue(d) < 0x1_0000)
      && (r.Some? ==> r.value as int == DecimalValue(d))
  {
    var digits := if |s| > 0 && s[0] == '+' then s[1..] else s;
    if digits == [] || !AllDigits(digits) then None
    else
      var v := DecimalValue(digits);
      if v < 0x1_0000 then Some(v as u16) else None
  }

  /** Every 16-bit number's decimal numeral, with or without a '+', parses
      back to the number. */
  lemma ParseU16RoundTrip(n: u16)
    ensures ParseU16(NatToDecimal(n as nat)) == Some(n)
    ensures ParseU16("+" + NatToDecimal(n as nat)) == Some(n)
  {
    var d := NatToDecimal(n as nat);
    DecimalRoundTrip(n as nat);
    assert d[0] != '+';
    assert ("+" + d)[1..] == d;
  }

  /** A numeral too large for 16 bits is rejected, and so is any numeral
      with a sign or a space before or after it. */
  lemma ParseU16Rejects(n: nat, c: char)
    requires c == '-' || IsWhitespace(c)
    ensures n >= 0x1_0000 ==> ParseU16(NatToDecimal(n)) == None
    ensures ParseU16([c] + NatToDecimal(n)) == None
    ensures ParseU16(NatToDecimal(n) + [c]) == None
  {
    DecimalRoundTrip(n);
    var d := NatToDecimal(n);
    var before := [c] + d;
    assert !IsDigit(before[0]) && before[0] != '+';
    var after := d + [c];
    assert after[0] == d[0] && IsDigit(after[0]);
    assert !IsDigit(after[|after| - 1]);
  }

  /** Leading zeros do not change the parsed value. */
  lemma ParseU16LeadingZero(s: string)
    requires s != [] && AllDigits(s)
    ensures ParseU16("0" + s) == ParseU16(s)
  {
    DecimalLeadingZero(s);
    assert ("0" + s)[0] != '+' && s[0] != '+';
  }

  /** `value.min(u8::MAX as u16) as u8`: values above 255 become 255. */
  function SaturateToU8(v: u16): (r: u8)
    ensures v <= 255 ==> r as int == v as int
    ensures v > 255 ==> r == 255
  {
    if v <= 255 then v as int as u8 else 255
  }

  /** `value as u8`: the low eight bits. */
  function TruncateToU8(v: u16): (r: u8)
    ensures r as int == v as int % 0x100
    ensures v < 0x100 ==> r as int == v as int
  {
    (v as int % 0x100) as u8
  }

  function ModeVar(prefix: string): string { prefix + "_MODE" }
  function BinaryThresholdVar(prefix: string): string { prefix + "_BINARY_THRESHOLD" }
  function ReducedLevelsVar(prefix: string): string { prefix + "_REDUCED_LEVELS" }
  function DisableSubpixelVar(prefix: string): string { prefix + "_DISABLE_SUBPIXEL_POSITIONING" }

  /** An environment variable parsed as a 16-bit number. */
  function EnvU16(env: map<string, string>, name: string): Option<u16> {
    if name in env then ParseU16(env[name]) else None
  }

  /** An environment variable parsed as a mode. */
  function EnvMode(env: map<string, string>, name: string): Option<AntialiasingMode> {
    if name in env then ParseAntialiasingMode(Trim(env[name])) else None
  }

  /** The profile after the environment overrides under `prefix`: a mode that
      parses replaces the mode; a threshold that parses is stored saturated to
      eight bits; a level count that parses is truncated to eight bits and
      clamped; any value other than "0" for the subpixel variable disables
      subpixel positioning, and nothing re-enables it. */
  function WithEnvOverrides(p: ProfileValue, env: map<string, string>, prefix: string): ProfileValue {
    var mode := EnvMode(env, ModeVar(prefix));
    var threshold := EnvU16(env, BinaryThresholdVar(prefix));
    var levels := EnvU16(env, ReducedLevelsVar(prefix));
    var disable := DisableSubpixelVar(prefix) in env && env[DisableSubpixelVar(prefix)] != "0";
    ProfileValue(
      if mode.Some? then mode.value else p.mode,
      if threshold.Some? then SaturateToU8(threshold.value) else p.binaryThreshold,
      if levels.Some? then ClampReducedLevels(TruncateToU8(levels.value)) else p.reducedLevels,
      if disable then true else p.disableSubpixelPositioning)
  }

  /** The profile after a configuration record: each present setting
      replaces its field, a mode only when it parses, and a level count is
      stored clamped. */
  function WithConfig(p: ProfileValue, c: ProfileConfig): ProfileValue {
    var mode := if c.mode.Some? then ParseAntialiasingMode(c.mode.value) else None;
    ProfileValue(
      if mode.Some? then mode.value else p.mode,
      if c.binaryThreshold.Some? then c.binaryThreshold.value else p.binaryThreshold,
      if c.reducedLevels.Some? then ClampReducedLevels(c.reducedLevels.value) else p.reducedLevels,
      if c.disableSubpixelPositioning.Some? then c.disableSubpixelPositioning.value
      else p.disableSubpixelPositioning)
  }

  /** A loaded profile: the defaults, then the environment, then the
      configuration when there is one. */
  function LoadedProfile(defaults: ProfileValue, env: map<string, string>, prefix: string,
                         c: Option<ProfileConfig>): ProfileValue {
    var p := WithEnvOverrides(defaults, env, prefix);
    if c.Some? then WithConfig(p, c.value) else p
  }

  /** Both overlays keep the level count in range. */
  lemma OverlaysKeepLevelsInRange(p: ProfileValue, env: map<string, string>, prefix: string, c: ProfileConfig)
    requires LevelsInRange(p)
    ensures LevelsInRange(WithEnvOverrides(p, env, prefix))
    ensures LevelsInRange(WithConfig(p, c))
  {
  }

  /** A configuration setting that is present decides its field whatever the
      environment said; an absent one leaves the environment's value. */
  lemma ConfigWinsOverEnv(p: ProfileValue, env: map<string, string>, prefix: string, c: ProfileConfig)
    ensures var e := WithEnvOverrides(p, env, prefix);
      var r := WithConfig(e, c);
      && (c.mode.Some? && ParseAntialiasingMode(c.mode.value).Some? ==>
            r.mode == ParseAntialiasingMode(c.mode.value).value)
      && (c.mode.None? || ParseAntialiasingMode(c.mode.value).None? ==> r.mode == e.mode)
      && (c.binaryThreshold.Some? ==> r.binaryThreshold == c.binaryThreshold.value)
      && (c.binaryThreshold.None? ==> r.binaryThreshold == e.binaryThreshold)
      && (c.reducedLevels.Some? ==> r.reducedLevels == ClampReducedLevels(c.reducedLevels.value))
      && (c.reducedLevels.None? ==> r.reducedLevels == e.reducedLevels)
      && (c.disableSubpixelPositioning.Some? ==>
            r.disableSubpixelPositioning == c.disableSubpixelPositioning.value)
      && (c.disableSubpixelPositioning.None? ==>
            r.disableSubpixelPositioning == e.disableSubpixelPositioning)
  {
  }

  /** A configuration whose every setting is present makes the result
      independent of the environment. */
  lemma FullConfigIgnoresEnv(p: ProfileValue, env1: map<string, string>, env2: map<string, string>,
                             prefix: string, c: ProfileConfig)
    requires c.mode.Some? && ParseAntialiasingMode(c.mode.value).Some?
    requires c.binaryThreshold.Some? && c.reducedLevels.Some? && c.disableSubpixelPositioning.Some?
    ensures WithConfig(WithEnvOverrides(p, env1, prefix), c) == WithConfig(WithEnvOverrides(p, env2, prefix), c)
  {
  }

  /** Applying the same overrides twice is applying them once. */
  lemma OverlaysIdempotent(p: ProfileValue, env: map<string, string>, prefix: string, c: ProfileConfig)
    ensures WithEnvOverrides(WithEnvOverrides(p, env, prefix), env, prefix) == WithEnvOverrides(p, env, prefix)
    ensures WithConfig(WithConfig(p, c), c) == WithConfig(p, c)
  {
    if c.reducedLevels.Some? {
      ClampIdempotent(c.reducedLevels.value);
    }
  }

  /** The environment can disable subpixel positioning but never enable it. */
  lemma EnvNeverEnablesSubpixel(p: ProfileValue, env: map<string, string>, prefix: string)
    requires p.disableSubpixelPositioning
    ensures WithEnvOverrides(p, env, prefix).disableSubpixelPositioning
  {
  }

  /** With none of the prefix's variables set the environment changes
      nothing. */
  lemma EmptyEnvChangesNothing(p: ProfileValue, env: map<string, string>, prefix: string)
    requires ModeVar(prefix) !in env && BinaryThresholdVar(prefix) !in env
    requires ReducedLevelsVar(prefix) !in env && DisableSubpixelVar(prefix) !in env
    ensures WithEnvOverrides(p, env, prefix) == p
  {
  }

  /** A threshold above 255 in the environment saturates, while a level
      count is cut to its low eight bits before clamping: 300 gives the
      threshold 255, and 258 gives 2 levels rather than 8. */
  lemma EnvNumbersNarrowDifferently(p: ProfileValue, prefix: string)
    ensures var env := map[BinaryThresholdVar(prefix) := "300", ReducedLevelsVar(prefix) := "258"];
      var r := WithEnvOverrides(p, env, prefix);
      r.binaryThreshold == 255 && r.reducedLevels == 2
  {
    var env := map[BinaryThresholdVar(prefix) := "300", ReducedLevelsVar(prefix) := "258"];
    VarNamesDiffer(prefix);
    ParseThreeDigits('3', '0', '0');
    assert "300" == ['3', '0', '0'];
    ParseThreeDigits('2', '5', '8');
    assert "258" == ['2', '5', '8'];
    assert EnvU16(env, BinaryThresholdVar(prefix)) == Some(300);
    assert EnvU16(env, ReducedLevelsVar(prefix)) == Some(258);
  }

  lemma VarNamesDiffer(prefix: string)
    ensures BinaryThresholdVar(prefix) != ReducedLevelsVar(prefix)
  {
    assert BinaryThresholdVar(prefix)[|prefix| + 1] == 'B';
    assert ReducedLevelsVar(prefix)[|prefix| + 1] == 'R';
  }

  /** A three-digit numeral parses to its value. */
  lemma ParseThreeDigits(a: char, b: char, c: char)
    requires IsDigit(a) && IsDigit(b) && IsDigit(c)
    ensures var v := (a as int - '0' as int) * 100 + (b as int - '0' as int) * 10 + (c as int - '0' as int);
      ParseU16([a, b, c]) == Some(v as u16)
  {
    var s := [a, b, c];
    assert s[..2] == [a, b] && [a, b][..1] == [a] && [a][..0] == [];
    assert DecimalValue([a]) == a as int - '0' as int;
    assert DecimalValue([a, b]) == (a as int - '0' as int) * 10 + (b as int - '0' as int);
    assert AllDigits(s) && s[0] != '+';
  }

  /** A rendering profile whose settings are updated in place. */
  class AntialiasingProfile {
    var mode: AntialiasingMode
    var binaryThreshold: u8
    var reducedLevels: u8
    var disableSubpixelPositioning: bool

    function Value(): ProfileValue
      reads this
    {
      ProfileValue(mode, binaryThreshold, reducedLevels, disableSubpixelPositioning)
    }

    ghost predicate Valid()
      reads this
    {
      LevelsInRange(Value())
    }

    /** Buffers default to binary coverage at threshold 96, 4 levels, and no
        subpixel positioning. */
    constructor DefaultBuffer()
      ensures Value() == BufferDefaults && Valid()
    {
      mode := Binary;
      binaryThreshold := 96;
      reducedLevels := 4;
      disableSubpixelPositioning := true;
    }

    /** The UI defaults to ordinary antialiasing with subpixel positioning. */
    constructor DefaultUi()
      ensures Value() == UiDefaults && Valid()
    {
      mode := Default;
      binaryThreshold := 96;
      reducedLevels := 4;
      disableSubpixelPositioning := false;
    }

    /** Applies the environment variables named after `prefix`, one setting
        at a time. */
    method ApplyEnvOverrides(env: map<string, string>, prefix: string)
      modifies this
      ensures Value() == WithEnvOverrides(old(Value()), env, prefix)
      ensures old(Valid()) ==> Valid()
    {
      var parsedMode := EnvMode(env, ModeVar(prefix));
      if parsedMode.Some? {
        mode := parsedMode.value;
      }
      var threshold := EnvU16(env, BinaryThresholdVar(prefix));
      if threshold.Some? {
        binaryThreshold := SaturateToU8(threshold.value);
      }
      var levels := EnvU16(env, ReducedLevelsVar(prefix));
      if levels.Some? {
        reducedLevels := ClampReducedLevels(TruncateToU8(levels.value));
      }
      var subpixelVar := DisableSubpixelVar(prefix);
      if subpixelVar in env && env[subpixelVar] != "0" {
        disableSubpixelPositioning := true;
      }
    }

    /** Applies the present settings of a configuration record. */
    method ApplyConfig(config: ProfileConfig)
      modifies this
      ensures Value() == WithConfig(old(Value()), config)
      ensures old(Valid()) ==> Valid()
    {
      if config.mode.Some? {
        var parsed := ParseAntialiasingMode(config.mode.value);
        if parsed.Some? {
          mode := parsed.value;
        }
      }
      if config.binaryThreshold.Some? {
        binaryThreshold := config.binaryThreshold.value;
      }
      if config.reducedLevels.Some? {
        reducedLevels := ClampReducedLevels(config.reducedLevels.value);
      }
      if config.disableSubpixelPositioning.Some? {
        disableSubpixelPositioning := config.disableSubpixelPositioning.value;
      }
    }
  }

  /** The buffer and UI profiles. */
  class AntialiasingPrefs {
    const buffer: AntialiasingProfile
    const ui: AntialiasingProfile

    ghost predicate Valid()
      reads this, buffer, ui
    {
      buffer != ui && buffer.Valid() && ui.Valid()
    }

    /** Both profiles at their defaults. */
    constructor()
      ensures fresh(buffer) && fresh(ui)
      ensures buffer.Value() == BufferDefaults && ui.Value() == UiDefaults
      ensures Valid()
    {
      buffer := new AntialiasingProfile.DefaultBuffer();
      ui := new AntialiasingProfile.DefaultUi();
    }
  }

  const BufferPrefix := "ZED_ANTIALIASING"
  const UiPrefix := "ZED_UI_ANTIALIASING"

  /** Loads the preferences: the defaults, then the environment for each
      profile, then the configuration record when one could be read. */
  method LoadPrefs(env: map<string, string>, config: Option<AntialiasingConfig>)
    returns (prefs: AntialiasingPrefs)
    ensures fresh(prefs) && fresh(prefs.buffer) && fresh(prefs.ui) && prefs.Valid()
    ensures prefs.buffer.Value()
            == LoadedProfile(BufferDefaults, env, BufferPrefix, if config.Some? then config.value.buffer else None)
    ensures prefs.ui.Value()
            == LoadedProfile(UiDefaults, env, UiPrefix, if config.Some? then config.value.ui else None)
  {
    prefs := new AntialiasingPrefs();
    prefs.buffer.ApplyEnvOverrides(env, BufferPrefix);
    prefs.ui.ApplyEnvOverrides(env, UiPrefix);
    if config.Some? {
      if config.value.buffer.Some? {
        prefs.buffer.ApplyConfig(config.value.buffer.value);
      }
      if config.value.ui.Some? {
        prefs.ui.ApplyConfig(config.value.ui.value);
      }
    }
  }

  /** Loaded profiles always have a level count in range. */
  lemma LoadedLevelsInRange(defaults: ProfileValue, env: map<string, string>, prefix: string,
                            c: Option<ProfileConfig>)
    requires LevelsInRange(defaults)
    ensures LevelsInRange(LoadedProfile(defaults, env, prefix, c))
  {
    OverlaysKeepLevelsInRange(defaults, env, prefix, if c.Some? then c.value else ProfileConfig(None, None, None, None));
    if c.Some? {
      OverlaysKeepLevelsInRange(WithEnvOverrides(defaults, env, prefix), env, prefix, c.value);
    }
  }
}
