/** What normalising a thinking configuration achieves: a normal form that a
    second pass leaves alone, effort that follows the budget, usable suffixes. */
module ThinkingResults {
  import opened Common
  import opened Thinking

  // ---------- levels and budgets ----------

  /** Going to a budget and back gives the level again, for every named level except "max". */
  lemma LevelBudgetInverse(level: string)
    requires ConvertLevelToBudget(level).Some?
    ensures ConvertBudgetToLevel(ConvertLevelToBudget(level).value) == Some(ToLower(level)) <==> ToLower(level) != "max"
  {}

  lemma StandardIndex(i: nat)
    requires i < |STANDARD|
    ensures LevelIndex(STANDARD[i]) == i
  {
    assert STANDARD[0][1] == 'i' && STANDARD[1][1] == 'o' && STANDARD[2][1] == 'e'
        && STANDARD[3][1] == 'i' && STANDARD[4][1] == 'h' && STANDARD[5][1] == 'a';
    assert STANDARD[0][0] == 'm' && STANDARD[3][0] == 'h';
    forall j, k | 0 <= j < k < |STANDARD| ensures !EqualFold(STANDARD[j], STANDARD[k]) {
      assert ToLower(STANDARD[j])[0] == STANDARD[j][0] && ToLower(STANDARD[k])[0] == STANDARD[k][0];
      assert ToLower(STANDARD[j])[1] == STANDARD[j][1] && ToLower(STANDARD[k])[1] == STANDARD[k][1];
    }
  }

  lemma FoldedIndex(a: string, b: string)
    requires EqualFold(a, b)
    ensures LevelIndex(a) == LevelIndex(b)
  {}

  lemma ToLowerTwice(s: string)
    ensures ToLower(ToLower(s)) == ToLower(s)
  {}

  /** Some supported level is a standard one. */
  predicate HasStandardLevel(levels: seq<string>) {
    exists i :: 0 <= i < |levels| && LevelIndex(TrimSpace(levels[i])) >= 0
  }

  /** A standard level is clamped to a supported level at the least distance in the standard
      order, the lower one on a tie. */
  lemma ClampedLevelIsNearest(level: string, levels: seq<string>)
    requires LevelIndex(level) >= 0 && HasStandardLevel(levels)
    ensures IsLevelSupported(ClampedLevel(level, levels), levels)
    ensures LevelIndex(ClampedLevel(level, levels)) == Nearest(LevelIndex(level), Positions(levels))
    ensures LevelIndex(ClampedLevel(level, levels)) >= 0
  {
    var pos, ps := LevelIndex(level), Positions(levels);
    var best := Nearest(pos, ps);
    var k :| 0 <= k < |levels| && LevelIndex(TrimSpace(levels[k])) >= 0;
    assert ps[k] in ps && best >= 0;
    if IsLevelSupported(level, levels) {
      var i :| 0 <= i < |levels| && EqualFold(level, TrimSpace(levels[i]));
      FoldedIndex(level, TrimSpace(levels[i]));
      assert ps[i] == pos && ps[i] in ps;
      assert !Closer(pos, pos, best);
    } else {
      var i :| 0 <= i < |ps| && ps[i] == best;
      assert EqualFold(TrimSpace(levels[i]), STANDARD[best]);
      StandardIndex(best);
    }
  }

  /** A higher position has no lower nearest position. */
  lemma NearestIsMonotone(p1: int, p2: int, ps: seq<int>)
    requires p1 <= p2
    ensures Nearest(p1, ps) <= Nearest(p2, ps)
  {
    var n1, n2 := Nearest(p1, ps), Nearest(p2, ps);
    if n1 >= 0 {
      assert n1 in ps;
      assert n2 >= 0 && !Closer(p2, n1, n2);
      assert n2 in ps && !Closer(p1, n2, n1);
    }
  }

  /** The position of the standard level that a positive budget stands for. */
  function BudgetPosition(budget: int): nat
    requires budget > 0
  {
    if budget <= 512 then 0 else if budget <= 1024 then 1 else if budget <= 8192 then 2
    else if budget <= 24576 then 3 else 4
  }

  lemma BudgetLevelIndex(budget: int)
    requires budget > 0
    ensures ConvertBudgetToLevel(budget).Some?
    ensures LevelIndex(ConvertBudgetToLevel(budget).value) == BudgetPosition(budget)
  {
    StandardIndex(BudgetPosition(budget));
    assert ConvertBudgetToLevel(budget).value == STANDARD[BudgetPosition(budget)];
  }

  /** On a level-only model a positive budget always becomes a supported level. */
  lemma BudgetBecomesLevel(budget: int, level: string, s: Support, from: string, to: string, fromSuffix: bool)
    requires budget > 0 && DetectModelCapability(s) == LevelOnly && HasStandardLevel(s.levels)
    ensures var chosen := ClampedLevel(ConvertBudgetToLevel(budget).value, s.levels);
            && Normalised(Config(ModeBudget, budget, level), Some(s), from, to, fromSuffix) ==
                Ok(Config(ModeLevel, 0, chosen))
            && IsLevelSupported(chosen, s.levels)
            && LevelIndex(chosen) == Nearest(BudgetPosition(budget), Positions(s.levels))
            && LevelIndex(chosen) >= 0
  {
    BudgetLevelIndex(budget);
    ClampedLevelIsNearest(ConvertBudgetToLevel(budget).value, s.levels);
    var chosen := ClampedLevel(ConvertBudgetToLevel(budget).value, s.levels);
    SpecialIsNotStandard(chosen);
  }

  lemma SpecialIsNotStandard(level: string)
    requires LevelIndex(level) >= 0
    ensures level != "none" && level != "auto" && ToLower(level) != "none" && ToLower(level) != "auto"
  {
    var i := LevelIndex(level);
    assert ToLower(STANDARD[i])[0] == STANDARD[i][0];
    assert ToLower("none")[0] == 'n' && ToLower("auto")[0] == 'a';
    assert "none"[0] == 'n' && "auto"[0] == 'a';
  }

  /** The result is the level at this standard position. */
  predicate LevelAt(r: Result, position: int) {
    r.Ok? && r.config.mode == ModeLevel && LevelIndex(r.config.level) == position >= 0
  }

  /** On a level-only model a positive budget gets the supported level nearest to its own. */
  lemma BudgetPositionOf(budget: int, level: string, s: Support, from: string, to: string, fromSuffix: bool)
    requires budget > 0 && DetectModelCapability(s) == LevelOnly && HasStandardLevel(s.levels)
    ensures LevelAt(Normalised(Config(ModeBudget, budget, level), Some(s), from, to, fromSuffix),
                    Nearest(BudgetPosition(budget), Positions(s.levels)))
  {
    BudgetBecomesLevel(budget, level, s, from, to, fromSuffix);
  }

  /** The results have levels, in this order. */
  predicate NoLessEffort(r1: Result, r2: Result) {
    && r1.Ok? && r2.Ok? && r1.config.mode == ModeLevel && r2.config.mode == ModeLevel
    && 0 <= LevelIndex(r1.config.level) <= LevelIndex(r2.config.level)
  }

  lemma PositionsOrder(r1: Result, r2: Result, p1: int, p2: int)
    requires LevelAt(r1, p1) && LevelAt(r2, p2) && p1 <= p2
    ensures NoLessEffort(r1, r2)
  {}

  /** A larger budget never gets less effort. */
  lemma EffortIsMonotone(b1: int, b2: int, level: string, s: Support, from: string, to: string, fromSuffix: bool)
    requires 0 < b1 <= b2 && DetectModelCapability(s) == LevelOnly && HasStandardLevel(s.levels)
    ensures NoLessEffort(Normalised(Config(ModeBudget, b1, level), Some(s), from, to, fromSuffix),
                         Normalised(Config(ModeBudget, b2, level), Some(s), from, to, fromSuffix))
  {
    var p1, p2 := Nearest(BudgetPosition(b1), Positions(s.levels)), Nearest(BudgetPosition(b2), Positions(s.levels));
    NearestIsMonotone(BudgetPosition(b1), BudgetPosition(b2), Positions(s.levels));
    BudgetPositionOf(b1, level, s, from, to, fromSuffix);
    BudgetPositionOf(b2, level, s, from, to, fromSuffix);
    PositionsOrder(Normalised(Config(ModeBudget, b1, level), Some(s), from, to, fromSuffix),
                   Normalised(Config(ModeBudget, b2, level), Some(s), from, to, fromSuffix), p1, p2);
  }

  // ---------- what is refused ----------

  /** A named level that is not a mode of its own is a standard one. */
  lemma NamedIsStandard(level: string)
    requires ConvertLevelToBudget(level).Some? && level == ToLower(level) && level != "none" && level != "auto"
    ensures LevelIndex(level) >= 0
  {
    assert level in STANDARD;
    var i :| 0 <= i < |STANDARD| && STANDARD[i] == level;
    StandardIndex(i);
  }

  /** Between provider families nothing that has a name is refused; without a strict check, no budget is. */
  lemma InteroperableIsAccepted(c: Config, s: Support, from: string, to: string, fromSuffix: bool)
    requires s.levels != [] ==> HasStandardLevel(s.levels)
    requires c.mode == ModeBudget ==> c.budget >= -1
    requires c.mode == ModeLevel ==> c.level == ToLower(c.level) && ConvertLevelToBudget(c.level).Some?
    requires !IsSameProviderFamily(from, to) || (c.mode != ModeLevel && (fromSuffix || from == ""))
    ensures Normalised(c, Some(s), from, to, fromSuffix).Ok?
  {
    if DetectModelCapability(s) == LevelOnly && c.mode == ModeBudget {
      LevelOnlyBudgetAccepted(c.budget, c.level, s, from, to, fromSuffix);
    } else if c.mode == ModeLevel && c.level != "none" && c.level != "auto" && s.levels != [] {
      NamedIsStandard(c.level);
      ClampedLevelIsNearest(c.level, s.levels);
    }
  }

  lemma LevelOnlyBudgetAccepted(budget: int, level: string, s: Support, from: string, to: string, fromSuffix: bool)
    requires DetectModelCapability(s) == LevelOnly && HasStandardLevel(s.levels) && budget >= -1
    ensures Normalised(Config(ModeBudget, budget, level), Some(s), from, to, fromSuffix).Ok?
  {
    if budget > 0 {
      BudgetBecomesLevel(budget, level, s, from, to, fromSuffix);
    } else {
      SpecialKept("auto", s.levels);
      SpecialKept("none", s.levels);
    }
  }

  /** Within a family a request's own budget is refused exactly if it is not zero and out of range: zero
      is a mode of its own before the range is looked at, so whether zero is allowed does not matter here. */
  lemma StrictRefusesOutOfRange(budget: int, level: string, s: Support, from: string, to: string)
    requires from != "" && IsSameProviderFamily(from, to)
    requires DetectModelCapability(s) == BudgetOnly || DetectModelCapability(s) == Hybrid
    ensures Normalised(Config(ModeBudget, budget, level), Some(s), from, to, false) == Err(BudgetOutOfRange)
            <==> budget != 0 && !(s.min <= budget <= s.max)
  {}

  // ---------- the normal form ----------

  predicate RangeOk(s: Support) {
    0 <= s.min <= s.max
  }

  /** An automatic mode that is not allowed can be replaced by something that stays valid. */
  predicate AutoResolvable(s: Support) {
    || s.dynamicAllowed
    || (if s.levels != [] && s.max == 0 then IsLevelSupported("medium", s.levels)
        else s.min + s.max >= 2 || s.zeroAllowed)
  }

  predicate Normal(r: Config, s: Support, to: string) {
    match r.mode
    case ModeAuto => s.dynamicAllowed && ClampBudget(r.budget, s) == r.budget
    case ModeBudget => r.budget > 0 && if s.max > 0 then s.min <= r.budget <= s.max else s.levels == []
    case ModeLevel =>
      && r.level != "none" && r.level != "auto"
      && DetectModelCapability(s) != BudgetOnly
      && (s.levels != [] ==> IsLevelSupported(r.level, s.levels))
    case ModeNone =>
      if to == "claude" then r.budget == 0 && r.level == ""
      else ClampBudget(r.budget, s) == r.budget && (r.budget > 0 && s.levels != [] ==> r.level == s.levels[0])
  }

  lemma ClampTwice(b: int, s: Support)
    requires RangeOk(s)
    ensures ClampBudget(ClampBudget(b, s), s) == ClampBudget(b, s)
    ensures b > 0 && s.max > 0 ==> s.min <= ClampBudget(b, s) <= s.max && ClampBudget(b, s) > 0
    ensures b > 0 && s.max == 0 ==> ClampBudget(b, s) == b
  {}

  /** The requests that end up in automatic mode. */
  predicate BecomesAuto(c: Config, s: Support) {
    || c.mode == ModeAuto
    || (c.mode == ModeLevel && c.level == "auto")
    || (c.mode == ModeBudget && c.budget == -1 && DetectModelCapability(s) == LevelOnly)
  }

  /** On a budget-only model "auto" in another spelling becomes the budget -1, not the automatic mode. */
  predicate MisspeltAuto(c: Config, s: Support) {
    DetectModelCapability(s) == BudgetOnly && c.mode == ModeLevel && c.level != "auto" && ToLower(c.level) == "auto"
  }

  /** A negative budget that is not raised to a positive minimum. */
  predicate StaysNegative(c: Config, s: Support) {
    && c.mode == ModeBudget && c.budget < 0 && DetectModelCapability(s) != LevelOnly
    && (c.budget == -1 || s.min == 0)
  }

  /** A request's budget is refused when out of range, rather than clamped. */
  predicate Strict(from: string, to: string, fromSuffix: bool) {
    !fromSuffix && from != "" && IsSameProviderFamily(from, to)
  }

  lemma NotSpecialClamped(level: string, levels: seq<string>)
    requires level != "none" && level != "auto"
    ensures ClampedLevel(level, levels) != "none" && ClampedLevel(level, levels) != "auto"
  {
    var clamped := ClampedLevel(level, levels);
    if clamped != level {
      StandardIndex(Nearest(LevelIndex(level), Positions(levels)));
      SpecialIsNotStandard(clamped);
    }
  }

  /** After the conversion and the special cases: no special level, no budget zero, no level on a
      budget-only model and no budget on a level-only one; a negative budget only from a request that
      has one or misspells "auto". */
  lemma ConvertedShape(c: Config, s: Support)
    requires RangeOk(s) && Converted(c, s).Ok?
    ensures var d := Special(Converted(c, s).config);
            && (d.mode == ModeAuto <==> BecomesAuto(c, s))
            && (d.mode == ModeLevel ==>
                  d.level != "none" && d.level != "auto" && DetectModelCapability(s) != BudgetOnly)
            && (d.mode == ModeBudget ==>
                  && DetectModelCapability(s) != LevelOnly && d.budget != 0
                  && (d.budget < 0 <==> MisspeltAuto(c, s) || (c.mode == ModeBudget && c.budget < 0))
                  && (MisspeltAuto(c, s) ==> d.budget == -1)
                  && (c.mode == ModeBudget ==> d == c))
            && (MisspeltAuto(c, s) ==> d.mode == ModeBudget)
            && (c.mode == ModeBudget && c.budget < 0 && DetectModelCapability(s) != LevelOnly ==> d.mode == ModeBudget)
  {
    if DetectModelCapability(s) == LevelOnly && c.mode == ModeBudget {
      if c.budget > 0 {
        BudgetLevelIndex(c.budget);
        var level := ConvertBudgetToLevel(c.budget).value;
        SpecialIsNotStandard(level);
        NotSpecialClamped(level, s.levels);
      } else {
        SpecialKept("auto", s.levels);
        SpecialKept("none", s.levels);
      }
    }
  }

  lemma SpecialKept(level: string, levels: seq<string>)
    requires level == "none" || level == "auto"
    ensures ClampedLevel(level, levels) == level
  {
    if LevelIndex(level) >= 0 { SpecialIsNotStandard(level); }
  }

  /** What can be seen of a request and a model beforehand that makes the result a normal form. */
  predicate Normalises(c: Config, s: Support) {
    (BecomesAuto(c, s) ==> AutoResolvable(s)) && !MisspeltAuto(c, s) && !StaysNegative(c, s)
  }

  /** The stages between the conversion and the last clamping. */
  function Resolved(d: Config, s: Support, from: string, to: string): Config
    requires LevelChecked(d, s, s.levels != [] && !IsSameProviderFamily(from, to)).Ok?
  {
    var e := LevelChecked(d, s, s.levels != [] && !IsSameProviderFamily(from, to)).config;
    if e.mode == ModeAuto && !s.dynamicAllowed then ConvertAutoToMidRange(e, s) else e
  }

  /** An accepted configuration is in normal form exactly if that can be seen beforehand. */
  lemma NormalForm(c: Config, s: Support, from: string, to: string, fromSuffix: bool)
    requires RangeOk(s) && Normalised(c, Some(s), from, to, fromSuffix).Ok?
    ensures Normal(Normalised(c, Some(s), from, to, fromSuffix).config, s, to) <==> Normalises(c, s)
  {
    ConvertedShape(c, s);
    var d := Special(Converted(c, s).config);
    if d.mode == ModeLevel { NotSpecialClamped(d.level, s.levels); }
    var resolved := Resolved(d, s, from, to);
    ClampTwice(resolved.budget, s);
    if Normalises(c, s) { FinishedIsNormal(resolved, s, to); }
  }

  lemma FinishedIsNormal(c: Config, s: Support, to: string)
    requires RangeOk(s)
    requires match c.mode
             case ModeAuto => s.dynamicAllowed
             case ModeBudget => (c.budget > 0 && (s.max == 0 ==> s.levels == [])) || (c.budget < -1 && s.min > 0)
             case ModeLevel => Normal(c, s, to)
             case ModeNone => true
    ensures Normal(Finished(c, s, to), s, to)
  {
    ClampTwice(c.budget, s);
  }

  /** A normal form is a fixed point, whatever its source. */
  lemma NormalIsFixed(r: Config, s: Support, from: string, to: string, fromSuffix: bool)
    requires RangeOk(s) && Normal(r, s, to)
    ensures Normalised(r, Some(s), from, to, fromSuffix) == Ok(r)
  {}

  predicate RepeatsItself(c: Config, s: Support, from: string, to: string, fromSuffix: bool) {
    var r := Normalised(c, Some(s), from, to, fromSuffix);
    r.Ok? ==> Normalised(r.config, Some(s), from, to, fromSuffix) == r
  }

  /** What can be seen beforehand that makes a second validation agree with the first: an automatic
      request can be resolved, no misspelt "auto" meets the strict check, and no budget below -1 is
      clamped to zero, which is a mode of its own. */
  predicate Settles(c: Config, s: Support, from: string, to: string, fromSuffix: bool) {
    && (BecomesAuto(c, s) ==> AutoResolvable(s))
    && !(MisspeltAuto(c, s) && Strict(from, to, fromSuffix))
    && !(c.mode == ModeBudget && c.budget < -1 && s.min == 0 < s.max && !Strict(from, to, fromSuffix))
  }

  /** Validating the result of an accepted configuration again changes nothing exactly if this can be
      seen beforehand; for every configuration, accepted or not. */
  lemma IdempotentIffSettles(c: Config, s: Support, from: string, to: string, fromSuffix: bool)
    requires RangeOk(s)
    ensures RepeatsItself(c, s, from, to, fromSuffix) <==> Settles(c, s, from, to, fromSuffix)
  {
    var r := Normalised(c, Some(s), from, to, fromSuffix);
    if BecomesAuto(c, s) && !AutoResolvable(s) {
      UnresolvableDiffers(c, s, from, to, fromSuffix);
    } else if MisspeltAuto(c, s) {
      MisspeltRepeats(c, s, from, to, fromSuffix);
    } else if StaysNegative(c, s) {
      NegativeRepeats(c, s, from, to, fromSuffix);
    } else if r.Ok? {
      NormalForm(c, s, from, to, fromSuffix);
      NormalIsFixed(r.config, s, from, to, fromSuffix);
    }
  }

  lemma UnresolvableDiffers(c: Config, s: Support, from: string, to: string, fromSuffix: bool)
    requires RangeOk(s) && BecomesAuto(c, s) && !AutoResolvable(s)
    ensures !RepeatsItself(c, s, from, to, fromSuffix)
  {
    SpecialKept("auto", s.levels);
    var r := Normalised(c, Some(s), from, to, fromSuffix);
    if s.levels != [] && s.max == 0 {
      assert r == Ok(Config(ModeLevel, 0, "medium"));
      UnsupportedMediumChanges(s, from, to, fromSuffix);
    } else {
      assert r.Ok? && r.config.mode == ModeBudget && r.config.budget == 0;
      ZeroBudgetChanges(r.config, s, from, to, fromSuffix);
    }
  }

  lemma UnsupportedMediumChanges(s: Support, from: string, to: string, fromSuffix: bool)
    requires RangeOk(s) && s.levels != [] && s.max == 0 && !IsLevelSupported("medium", s.levels)
    ensures Normalised(Config(ModeLevel, 0, "medium"), Some(s), from, to, fromSuffix) !=
              Ok(Config(ModeLevel, 0, "medium"))
  {}

  lemma ZeroBudgetChanges(r: Config, s: Support, from: string, to: string, fromSuffix: bool)
    requires RangeOk(s) && r.mode == ModeBudget && r.budget == 0 && DetectModelCapability(s) != LevelOnly
    ensures Normalised(r, Some(s), from, to, fromSuffix) != Ok(r)
  {}

  lemma MisspeltRepeats(c: Config, s: Support, from: string, to: string, fromSuffix: bool)
    requires RangeOk(s) && MisspeltAuto(c, s)
    ensures RepeatsItself(c, s, from, to, fromSuffix) <==> !Strict(from, to, fromSuffix)
  {
    assert Normalised(c, Some(s), from, to, fromSuffix) == Ok(Config(ModeBudget, -1, ""));
  }

  lemma NegativeRepeats(c: Config, s: Support, from: string, to: string, fromSuffix: bool)
    requires RangeOk(s) && StaysNegative(c, s)
    ensures RepeatsItself(c, s, from, to, fromSuffix)
            <==> !(c.budget < -1 && s.min == 0 < s.max && !Strict(from, to, fromSuffix))
  {}

  /** An automatic request on such a model is turned into something that the next pass rejects or changes. */
  lemma AutoDoesNotSettle(s: Support)
    requires RangeOk(s) && !AutoResolvable(s)
    ensures !RepeatsItself(Config(ModeAuto, -1, ""), s, "openai", "openai", false)
  {
    var c := Config(ModeAuto, -1, "");
    var r := Normalised(c, Some(s), "openai", "openai", false);
    if s.levels != [] && s.max == 0 {
      assert r == Ok(Config(ModeLevel, 0, "medium"));
      assert Normalised(r.config, Some(s), "openai", "openai", false) == Err(LevelNotSupported);
    } else {
      assert r == Ok(Config(ModeBudget, 0, ""));
    }
  }

  /** "AUTO" on a budget-only model is accepted as the budget -1, which the next pass refuses. */
  lemma MisspeltAutoIsRefusedNext()
    ensures var s := Support(128, 32768, true, true, []);
            && Normalised(Config(ModeLevel, 0, "AUTO"), Some(s), "openai", "openai", false) ==
                Ok(Config(ModeBudget, -1, ""))
            && Normalised(Config(ModeBudget, -1, ""), Some(s), "openai", "openai", false) == Err(BudgetOutOfRange)
  {
    assert ToLower("AUTO") == "auto";
  }

  /** A negative budget is clamped to zero, which the next pass takes for the mode "none". */
  lemma NegativeBudgetBecomesNone()
    ensures var s := Support(0, 24576, true, true, []);
            && Normalised(Config(ModeBudget, -5, ""), Some(s), "claude", "gemini", false) ==
                Ok(Config(ModeBudget, 0, ""))
            && Normalised(Config(ModeBudget, 0, ""), Some(s), "claude", "gemini", false) == Ok(Config(ModeNone, 0, ""))
  {}

  // ---------- suffixes ----------

  datatype SuffixResult = SuffixResult(modelName: string, hasSuffix: bool, rawSuffix: string)

  /** The last position of `c`, or -1. */
  function LastIndex(s: string, c: char): (i: int)
    ensures -1 <= i < |s|
    ensures i >= 0 ==> s[i] == c
    ensures forall k :: i < k < |s| ==> s[k] != c
  {
    if s == "" then -1 else if s[|s| - 1] == c then |s| - 1 else LastIndex(s[..|s| - 1], c)
  }

  function ParseSuffix(model: string): SuffixResult {
    var lastOpen := LastIndex(model, '(');
    if lastOpen == -1 || model[|model| - 1] != ')' then SuffixResult(model, false, "")
    else SuffixResult(model[..lastOpen], true, model[lastOpen + 1..|model| - 1])
  }

  function ParseNumericSuffix(raw: string): Option<int> {
    var value := Atoi(seq(|raw|, i requires 0 <= i < |raw| => raw[i] as int));
    if value.Some? && value.value >= 0 then value else None
  }

  function ParseSpecialSuffix(raw: string): Option<Mode> {
    var l := ToLower(raw);
    if l == "none" then Some(ModeNone) else if l == "auto" || l == "-1" then Some(ModeAuto) else None
  }

  function ParseLevelSuffix(raw: string): Option<string> {
    var l := ToLower(raw);
    if l in STANDARD then Some(l) else None
  }

  function ParseSuffixToConfig(raw: string): Config {
    var mode, level, budget := ParseSpecialSuffix(raw), ParseLevelSuffix(raw), ParseNumericSuffix(raw);
    if mode == Some(ModeNone) then Config(ModeNone, 0, "")
    else if mode == Some(ModeAuto) then Config(ModeAuto, -1, "")
    else if level.Some? then Config(ModeLevel, 0, level.value)
    else if budget.Some? then (if budget.value == 0 then Config(ModeNone, 0, "")
                                 else Config(ModeBudget, budget.value, ""))
    else Config(ModeBudget, 0, "")
  }

  predicate HasThinkingConfig(c: Config) {
    c.mode != ModeBudget || c.budget != 0 || c.level != ""
  }

  /** A suffix configures something exactly when one of the three parsers recognises it. */
  lemma SuffixRecognised(raw: string)
    ensures HasThinkingConfig(ParseSuffixToConfig(raw)) <==>
            ParseSpecialSuffix(raw).Some? || ParseLevelSuffix(raw).Some? || ParseNumericSuffix(raw).Some?
  {
    assert ParseSpecialSuffix(raw).Some? ==> ParseSpecialSuffix(raw).value in {ModeNone, ModeAuto};
  }

  /** A name with a suffix in parentheses is taken apart into the two, if the suffix holds no
      parenthesis of its own. */
  lemma SuffixRoundTrip(name: string, raw: string)
    requires '(' !in raw
    ensures ParseSuffix(name + "(" + raw + ")") == SuffixResult(name, true, raw)
  {
    var model := name + "(" + raw + ")";
    var i := LastIndex(model, '(');
    assert model[|name|] == '(';
    forall k | |name| < k < |model| ensures model[k] != '(' {
      if k < |model| - 1 { assert model[k] == raw[k - |name| - 1] && model[k] in raw; }
    }
    assert i == |name|;
    assert model[..|name|] == name && model[|name| + 1..|model| - 1] == raw;
  }

  /** A suffix never stands for a negative budget or a misspelt level. */
  lemma SuffixNormalises(raw: string, s: Support)
    ensures Normalises(ParseSuffixToConfig(raw), s)
            <==> (ParseSpecialSuffix(raw) == Some(ModeAuto) ==> AutoResolvable(s))
    ensures ParseSuffixToConfig(raw).mode == ModeLevel ==>
              ParseSuffixToConfig(raw).level in STANDARD && ConvertLevelToBudget(ParseSuffixToConfig(raw).level).Some?
  {
    var l := ToLower(raw);
    ToLowerTwice(raw);
    if l in STANDARD {
      var i :| 0 <= i < |STANDARD| && STANDARD[i] == l;
      StandardIndex(i);
      SpecialIsNotStandard(l);
    }
    assert ToLower("") == "";
  }

  /** On a budget-only model every suffix is accepted, and normalised unless it asks for an automatic
      mode that cannot be resolved. */
  lemma SuffixAccepted(raw: string, s: Support, from: string, to: string)
    requires RangeOk(s) && DetectModelCapability(s) == BudgetOnly
    ensures var r := Normalised(ParseSuffixToConfig(raw), Some(s), from, to, true);
            r.Ok? && (Normal(r.config, s, to) <==> (ParseSpecialSuffix(raw) == Some(ModeAuto) ==> AutoResolvable(s)))
  {
    SuffixNormalises(raw, s);
    var c := ParseSuffixToConfig(raw);
    assert Converted(c, s).Ok?;
    ConvertedShape(c, s);
    NormalForm(c, s, from, to, true);
  }
}
