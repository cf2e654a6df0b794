/** Normalising a thinking configuration against what a model supports. */
module Thinking {
  import opened Common

  datatype Mode = ModeBudget | ModeLevel | ModeNone | ModeAuto

  datatype Config = Config(mode: Mode, budget: int, level: string)

  datatype Support = Support(min: int, max: int, zeroAllowed: bool, dynamicAllowed: bool, levels: seq<string>)

  datatype Error = ThinkingNotSupported | UnknownLevel | LevelNotSupported | BudgetOutOfRange

  datatype Result = Ok(config: Config) | Err(error: Error)

  datatype Capability = CapabilityNone | BudgetOnly | LevelOnly | Hybrid

  // ---------- levels ----------

  /** The standard levels, from lowest to highest. */
  const STANDARD: seq<string> := ["minimal", "low", "medium", "high", "xhigh", "max"]

  function ConvertLevelToBudget(level: string): Option<int> {
    var l := ToLower(level);
    if l == "none" then Some(0)
    else if l == "auto" then Some(-1)
    else if l == "minimal" then Some(512)
    else if l == "low" then Some(1024)
    else if l == "medium" then Some(8192)
    else if l == "high" then Some(24576)
    else if l == "xhigh" then Some(32768)
    else if l == "max" then Some(128000)
    else None
  }

  function ConvertBudgetToLevel(budget: int): Option<string> {
    if budget < -1 then None
    else if budget == -1 then Some("auto")
    else if budget == 0 then Some("none")
    else if budget <= 512 then Some("minimal")
    else if budget <= 1024 then Some("low")
    else if budget <= 8192 then Some("medium")
    else if budget <= 24576 then Some("high")
    else Some("xhigh")
  }

  predicate IsLevelSupported(level: string, supported: seq<string>) {
    exists i :: 0 <= i < |supported| && EqualFold(level, TrimSpace(supported[i]))
  }

  /** The position of a level in the standard order, or -1. */
  function LevelIndex(level: string): (i: int)
    ensures -1 <= i < |STANDARD|
    ensures i >= 0 ==> EqualFold(level, STANDARD[i])
    ensures i == -1 ==> forall k :: 0 <= k < |STANDARD| ==> !EqualFold(level, STANDARD[k])
  {
    if EqualFold(level, STANDARD[0]) then 0
    else if EqualFold(level, STANDARD[1]) then 1
    else if EqualFold(level, STANDARD[2]) then 2
    else if EqualFold(level, STANDARD[3]) then 3
    else if EqualFold(level, STANDARD[4]) then 4
    else if EqualFold(level, STANDARD[5]) then 5
    else -1
  }

  function Distance(a: int, b: int): nat {
    if a <= b then b - a else a - b
  }

  predicate Closer(pos: int, a: int, b: int) {
    Distance(pos, a) < Distance(pos, b) || (Distance(pos, a) == Distance(pos, b) && a < b)
  }

  /** The standard positions of the supported levels, -1 for other names. */
  function Positions(supported: seq<string>): (ps: seq<int>)
    ensures |ps| == |supported|
  {
    seq(|supported|, i requires 0 <= i < |supported| => LevelIndex(TrimSpace(supported[i])))
  }

  /** Among the non-negative positions, the one nearest to `pos`, the lower one on a tie; -1 if there is none. */
  ghost predicate IsNearest(pos: int, ps: seq<int>, best: int) {
    && (best == -1 || (best >= 0 && best in ps))
    && (forall p :: p in ps && p >= 0 ==> best >= 0 && !Closer(pos, p, best))
  }

  function Nearest(pos: int, ps: seq<int>): (best: int)
    ensures IsNearest(pos, ps, best)
  {
    if ps == [] then -1 else
    var n := |ps| - 1;
    var best := Nearest(pos, ps[..n]);
    assert ps == ps[..n] + [ps[n]];
    if ps[n] >= 0 && (best < 0 || Closer(pos, ps[n], best)) then ps[n] else best
  }

  /** There is only one nearest position. */
  lemma NearestIsUnique(pos: int, ps: seq<int>, a: int, b: int)
    requires IsNearest(pos, ps, a) && IsNearest(pos, ps, b)
    ensures a == b
  {}

  function ClampedLevel(level: string, supported: seq<string>): string {
    if supported == [] || IsLevelSupported(level, supported) || LevelIndex(level) == -1 then level
    else
      var best := Nearest(LevelIndex(level), Positions(supported));
      if best >= 0 then STANDARD[best] else level
  }

  /** The search itself, with its best-so-far variables. */
  method ClampLevel(level: string, supported: seq<string>) returns (clamped: string)
    ensures clamped == ClampedLevel(level, supported)
  {
    if |supported| == 0 || IsLevelSupported(level, supported) { return level; }
    var pos := LevelIndex(level);
    if pos == -1 { return level; }
    var bestIdx := FindNearest(pos, supported);
    if bestIdx >= 0 { return STANDARD[bestIdx]; }
    return level;
  }

  method FindNearest(pos: int, supported: seq<string>) returns (bestIdx: int)
    requires 0 <= pos < |STANDARD|
    ensures bestIdx == Nearest(pos, Positions(supported))
  {
    ghost var ps := Positions(supported);
    var bestDist := |STANDARD| + 1;
    bestIdx := -1;
    for i := 0 to |supported|
      invariant IsNearest(pos, ps[..i], bestIdx) && bestIdx < |STANDARD|
      invariant bestDist == if bestIdx == -1 then |STANDARD| + 1 else Distance(pos, bestIdx)
    {
      var idx := LevelIndex(TrimSpace(supported[i]));
      assert ps[..i + 1] == ps[..i] + [idx];
      if idx != -1 {
        var dist := Distance(pos, idx);
        if dist < bestDist || (dist == bestDist && idx < bestIdx) {
          bestIdx, bestDist := idx, dist;
        }
      }
    }
    assert ps[..|supported|] == ps;
    NearestIsUnique(pos, ps, bestIdx, Nearest(pos, ps));
  }

  // ---------- capabilities and families ----------

  function DetectModelCapability(s: Support): Capability {
    var hasBudget, hasLevels := s.min > 0 || s.max > 0, s.levels != [];
    if hasBudget && hasLevels then Hybrid
    else if hasBudget then BudgetOnly
    else if hasLevels then LevelOnly
    else CapabilityNone
  }

  predicate IsGeminiFamily(provider: string) {
    provider in {"gemini", "gemini-cli", "antigravity"}
  }

  predicate IsOpenAIFamily(provider: string) {
    provider in {"openai", "openai-response", "codex"}
  }

  predicate IsSameProviderFamily(from: string, to: string) {
    from == to || (IsGeminiFamily(from) && IsGeminiFamily(to)) || (IsOpenAIFamily(from) && IsOpenAIFamily(to))
  }

  // ---------- the stages of validation ----------

  /** A level as a budget on a budget-only model, a budget as a level on a level-only one. */
  function Converted(c: Config, s: Support): Result {
    match DetectModelCapability(s)
    case BudgetOnly =>
      if c.mode != ModeLevel || c.level == "auto" then Ok(c)
      else
        var budget := ConvertLevelToBudget(c.level);
        if budget.None? then Err(UnknownLevel) else Ok(Config(ModeBudget, budget.value, ""))
    case LevelOnly =>
      if c.mode != ModeBudget then Ok(c)
      else
        var level := ConvertBudgetToLevel(c.budget);
        if level.None? then Err(UnknownLevel) else Ok(Config(ModeLevel, 0, ClampedLevel(level.value, s.levels)))
    case _ => Ok(c)
  }

  predicate DerivedFromLevel(c: Config, s: Support) {
    DetectModelCapability(s) == BudgetOnly && c.mode == ModeLevel && c.level != "auto"
  }

  /** The levels "none" and "auto" and the budget 0 are modes of their own. */
  function Special(c: Config): Config {
    var c1 := if c.mode == ModeLevel && c.level == "none" then Config(ModeNone, 0, "") else c;
    var c2 := if c1.mode == ModeLevel && c1.level == "auto" then Config(ModeAuto, -1, "") else c1;
    if c2.mode == ModeBudget && c2.budget == 0 then c2.(mode := ModeNone, level := "") else c2
  }

  function LevelChecked(c: Config, s: Support, allowClamp: bool): Result {
    if s.levels == [] || c.mode != ModeLevel || IsLevelSupported(c.level, s.levels) then Ok(c)
    else
      var level := if allowClamp then ClampedLevel(c.level, s.levels) else c.level;
      if IsLevelSupported(level, s.levels) then Ok(c.(level := level)) else Err(LevelNotSupported)
  }

  predicate OutOfRange(c: Config, s: Support) {
    && c.mode == ModeBudget && (s.min != 0 || s.max != 0)
    && (c.budget < s.min || c.budget > s.max || (c.budget == 0 && !s.zeroAllowed))
  }

  /** Integer division by two as Go does it, towards zero. */
  function Half(n: int): int {
    if n >= 0 then n / 2 else -((-n) / 2)
  }

  function ConvertAutoToMidRange(c: Config, s: Support): Config {
    if s.levels != [] && s.min == 0 && s.max == 0 then Config(ModeLevel, 0, "medium")
    else
      var mid := Half(s.min + s.max);
      if mid <= 0 && s.zeroAllowed then c.(mode := ModeNone, budget := 0)
      else if mid <= 0 then c.(mode := ModeBudget, budget := s.min)
      else c.(mode := ModeBudget, budget := mid)
  }

  function ClampBudget(value: int, s: Support): int {
    if value == -1 then value
    else if value == 0 && !s.zeroAllowed then s.min
    else if s.min == 0 && s.max == 0 then value
    else if value < s.min then (if value == 0 && s.zeroAllowed then 0 else s.min)
    else if value > s.max then s.max
    else value
  }

  function Finished(c: Config, s: Support, to: string): Config {
    if c.mode == ModeNone && to == "claude" then c.(budget := 0, level := "")
    else
      var c1 := if c.mode == ModeLevel then c else c.(budget := ClampBudget(c.budget, s));
      if c1.mode == ModeNone && c1.budget > 0 && s.levels != [] then c1.(level := s.levels[0]) else c1
  }

  /** What `ValidateConfig` makes of a configuration; the formats are lower-case and trimmed. */
  function Normalised(c: Config, support: Option<Support>, from: string, to: string, fromSuffix: bool): Result {
    if support.None? then (if c.mode != ModeNone then Err(ThinkingNotSupported) else Ok(c))
    else
      var s := support.value;
      var allowClamp := s.levels != [] && !IsSameProviderFamily(from, to);
      var strict := !fromSuffix && from != "" && IsSameProviderFamily(from, to);
      var converted := Converted(c, s);
      if converted.Err? then converted
      else
        var checked := LevelChecked(Special(converted.config), s, allowClamp);
        if checked.Err? then checked
        else if strict && !DerivedFromLevel(c, s) && OutOfRange(checked.config, s) then Err(BudgetOutOfRange)
        else
          var resolved := if checked.config.mode == ModeAuto && !s.dynamicAllowed
                          then ConvertAutoToMidRange(checked.config, s) else checked.config;
          Ok(Finished(resolved, s, to))
  }

  function Validated(c: Config, support: Option<Support>, fromFormat: string, toFormat: string,
                     fromSuffix: bool): Result {
    Normalised(c, support, ToLower(TrimSpace(fromFormat)), ToLower(TrimSpace(toFormat)), fromSuffix)
  }

  method Convert(c: Config, s: Support) returns (r: Result, derived: bool)
    ensures r == Converted(c, s)
    ensures r.Ok? ==> derived == DerivedFromLevel(c, s)
  {
    var capability := DetectModelCapability(s);
    derived := false;
    if capability == BudgetOnly {
      if c.mode == ModeLevel && c.level != "auto" {
        var budget := ConvertLevelToBudget(c.level);
        if budget.None? { return Err(UnknownLevel), false; }
        return Ok(Config(ModeBudget, budget.value, "")), true;
      }
    } else if capability == LevelOnly {
      if c.mode == ModeBudget {
        var level := ConvertBudgetToLevel(c.budget);
        if level.None? { return Err(UnknownLevel), false; }
        var clamped := ClampLevel(level.value, s.levels);
        return Ok(Config(ModeLevel, 0, clamped)), false;
      }
    }
    return Ok(c), false;
  }

  method CheckLevel(c: Config, s: Support, allowClampUnsupported: bool) returns (r: Result)
    ensures r == LevelChecked(c, s, allowClampUnsupported)
  {
    var config := c;
    if s.levels != [] && config.mode == ModeLevel {
      if !IsLevelSupported(config.level, s.levels) {
        if allowClampUnsupported {
          var clamped := ClampLevel(config.level, s.levels);
          config := config.(level := clamped);
        }
        if !IsLevelSupported(config.level, s.levels) { return Err(LevelNotSupported); }
      }
    }
    return Ok(config);
  }

  method MarkSpecial(c: Config) returns (config: Config)
    ensures config == Special(c)
  {
    config := c;
    if config.mode == ModeLevel && config.level == "none" { config := Config(ModeNone, 0, ""); }
    if config.mode == ModeLevel && config.level == "auto" { config := Config(ModeAuto, -1, ""); }
    if config.mode == ModeBudget && config.budget == 0 { config := config.(mode := ModeNone, level := ""); }
  }

  method Finish(c: Config, s: Support, to: string) returns (config: Config)
    ensures config == Finished(c, s, to)
  {
    config := c;
    if config.mode == ModeNone && to == "claude" {
      config := config.(budget := 0, level := "");
    } else {
      if config.mode != ModeLevel { config := config.(budget := ClampBudget(config.budget, s)); }
      if config.mode == ModeNone && config.budget > 0 && s.levels != [] { config := config.(level := s.levels[0]); }
    }
  }

  /** The function itself, reassigning its configuration one stage after the other. */
  method ValidateConfig(c: Config, support: Option<Support>, fromFormat: string, toFormat: string, fromSuffix: bool)
    returns (r: Result)
    ensures r == Validated(c, support, fromFormat, toFormat, fromSuffix)
  {
    var from, to := ToLower(TrimSpace(fromFormat)), ToLower(TrimSpace(toFormat));
    if support.None? {
      if c.mode != ModeNone { return Err(ThinkingNotSupported); }
      return Ok(c);
    }
    var s := support.value;
    var sameFamily := IsSameProviderFamily(from, to);
    var capability := DetectModelCapability(s);
    var allowClampUnsupported := (capability == LevelOnly || capability == Hybrid) && !sameFamily;
    var strictBudget := !fromSuffix && from != "" && sameFamily;
    var converted, budgetDerivedFromLevel := Convert(c, s);
    if converted.Err? { return converted; }
    var config := MarkSpecial(converted.config);
    var checked := CheckLevel(config, s, allowClampUnsupported);
    if checked.Err? { return checked; }
    config := checked.config;
    if strictBudget && !budgetDerivedFromLevel && OutOfRange(config, s) { return Err(BudgetOutOfRange); }
    if config.mode == ModeAuto && !s.dynamicAllowed { config := ConvertAutoToMidRange(config, s); }
    config := Finish(config, s, to);
    return Ok(config);
  }
}
