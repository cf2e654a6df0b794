/** What a request comes to on a model: in modes, levels and numbers, without the stages of validation. */
module ThinkingOutcomes {
  import opened Common
  import opened Thinking
  import opened ThinkingResults

  // ---------- automatic requests ----------

  /** A request for the automatic mode: as such, as the level "auto", or as the budget -1 on a model that only
      knows levels. */
  predicate AsksForAuto(c: Config, s: Support) {
    || c.mode == ModeAuto
    || (c.mode == ModeLevel && c.level == "auto")
    || (c.mode == ModeBudget && c.budget == -1 && s.levels != [] && s.min == 0 == s.max)
  }

  /** All such requests reach the stage that resolves the automatic mode. */
  lemma AutoStage(c: Config, s: Support, from: string, to: string, fromSuffix: bool) returns (d: Config)
    requires RangeOk(s) && AsksForAuto(c, s)
    ensures d.mode == ModeAuto && (c.mode == ModeAuto ==> d == c) && (c.mode != ModeAuto ==> d.budget == -1)
    ensures Normalised(c, Some(s), from, to, fromSuffix)
            == Ok(Finished(if s.dynamicAllowed then d else ConvertAutoToMidRange(d, s), s, to))
  {
    SpecialKept("auto", s.levels);
    d := Special(Converted(c, s).config);
  }

  /** Where the automatic mode is not allowed, it becomes "medium" on a level-only model and otherwise the
      middle of the range; without a middle, no thinking if that is allowed and the minimum if not. */
  lemma AutoIsResolved(c: Config, s: Support, from: string, to: string, fromSuffix: bool)
    requires RangeOk(s) && AsksForAuto(c, s) && !s.dynamicAllowed
    ensures ResolvedAs(Normalised(c, Some(s), from, to, fromSuffix), s)
  {
    var d := AutoStage(c, s, from, to, fromSuffix);
    MidRange(d, s, to);
  }

  ghost predicate ResolvedAs(r: Result, s: Support) {
    && r.Ok?
    && (s.levels != [] && s.max == 0 ==> r.config == Config(ModeLevel, 0, "medium"))
    && (s.min + s.max >= 2 ==>
          r.config.mode == ModeBudget && 2 * r.config.budget <= s.min + s.max < 2 * r.config.budget + 2)
    && (s.min + s.max < 2 && !(s.levels != [] && s.max == 0) ==>
          if s.zeroAllowed then r.config.mode == ModeNone && r.config.budget == 0
          else r.config.mode == ModeBudget && r.config.budget == s.min)
  }

  lemma MidRange(d: Config, s: Support, to: string)
    requires RangeOk(s)
    ensures ResolvedAs(Ok(Finished(ConvertAutoToMidRange(d, s), s, to)), s)
  {}

  /** Where it is allowed it stays. */
  lemma AutoIsKept(c: Config, s: Support, from: string, to: string, fromSuffix: bool)
    requires RangeOk(s) && AsksForAuto(c, s) && s.dynamicAllowed && (c.mode == ModeAuto ==> c.budget == -1)
    ensures var r := Normalised(c, Some(s), from, to, fromSuffix);
            r.Ok? && r.config.mode == ModeAuto && r.config.budget == -1
  {
    var d := AutoStage(c, s, from, to, fromSuffix);
  }

  // ---------- budgets ----------

  /** `r` is in the range, and nothing in the range is nearer to `budget`. */
  ghost predicate NearestInRange(budget: int, s: Support, r: int) {
    s.min <= r <= s.max && forall x :: s.min <= x <= s.max ==> Distance(r, budget) <= Distance(x, budget)
  }

  /** An accepted budget, other than the two that stand for modes, becomes the nearest one of the range; a
      model without a range and without levels leaves it alone. */
  lemma BudgetIsNearest(c: Config, s: Support, from: string, to: string, fromSuffix: bool)
    requires RangeOk(s) && c.mode == ModeBudget && c.budget != 0 && c.budget != -1
    requires Normalised(c, Some(s), from, to, fromSuffix).Ok? && (s.levels == [] || s.max > 0)
    ensures var r := Normalised(c, Some(s), from, to, fromSuffix).config;
            && r.mode == ModeBudget && r.level == c.level
            && if s.max > 0 then NearestInRange(c.budget, s, r.budget) else r.budget == c.budget
  {}

  /** A named level on a model that only knows budgets. */
  lemma LevelBecomesBudget(c: Config, s: Support, from: string, to: string, fromSuffix: bool)
    requires RangeOk(s) && s.levels == [] && s.max > 0 && c.mode == ModeLevel && LevelIndex(c.level) >= 0
    ensures var r := Normalised(c, Some(s), from, to, fromSuffix);
            var budget := [512, 1024, 8192, 24576, 32768, 128000][LevelIndex(c.level)];
            r.Ok? && r.config.mode == ModeBudget && r.config.level == "" && NearestInRange(budget, s, r.config.budget)
  {
    SpecialIsNotStandard(c.level);
    StandardIndex(LevelIndex(c.level));
    assert ToLower(c.level) == STANDARD[LevelIndex(c.level)] by { StandardIsLower(LevelIndex(c.level)); }
  }

  lemma StandardIsLower(i: nat)
    requires i < |STANDARD|
    ensures ToLower(STANDARD[i]) == STANDARD[i]
  {}

  /** What has no counterpart is refused: a level without a name on a model that only knows budgets, and a
      budget below -1 on one that only knows levels. */
  lemma NamelessIsRefused(c: Config, s: Support, from: string, to: string, fromSuffix: bool)
    requires RangeOk(s)
    requires || (s.levels == [] && s.max > 0 && c.mode == ModeLevel
                 && ToLower(c.level) !in ["none", "auto", "minimal", "low", "medium", "high", "xhigh", "max"])
             || (s.levels != [] && s.max == 0 && c.mode == ModeBudget && c.budget < -1)
    ensures Normalised(c, Some(s), from, to, fromSuffix) == Err(UnknownLevel)
  {
    assert ToLower("auto") == "auto";
  }

  // ---------- no thinking ----------

  predicate AsksForNone(c: Config) {
    match c.mode
    case ModeLevel => c.level == "none"
    case ModeAuto => false
    case _ => c.budget == 0
  }

  lemma NoneStage(c: Config, s: Support, from: string, to: string, fromSuffix: bool) returns (d: Config)
    requires RangeOk(s) && AsksForNone(c)
    ensures d.mode == ModeNone && d.budget == 0
    ensures Normalised(c, Some(s), from, to, fromSuffix) == Ok(Finished(d, s, to))
  {
    SpecialKept("none", s.levels);
    d := Special(Converted(c, s).config);
  }

  /** Asking for no thinking is never refused: the budget is zero, or the minimum where zero is not allowed;
      "claude" can be told to switch it off in any case. */
  lemma OffStaysOff(c: Config, s: Support, from: string, to: string, fromSuffix: bool)
    requires RangeOk(s) && AsksForNone(c)
    ensures var r := Normalised(c, Some(s), from, to, fromSuffix);
            && r.Ok? && r.config.mode == ModeNone
            && r.config.budget == (if to == "claude" || s.zeroAllowed then 0 else s.min)
            && (r.config.budget > 0 && s.levels != [] ==> r.config.level == s.levels[0])
  {
    var d := NoneStage(c, s, from, to, fromSuffix);
  }

  // ---------- levels ----------

  /** Up to spelling and white space around the model's entry. */
  ghost predicate Offers(s: Support, level: string) {
    exists i :: 0 <= i < |s.levels| && ToLower(level) == ToLower(TrimSpace(s.levels[i]))
  }

  /** Such a level is only checked. */
  lemma LevelStage(c: Config, s: Support, from: string, to: string, fromSuffix: bool)
    requires s.levels != [] && c.mode == ModeLevel && c.level != "none" && c.level != "auto"
    ensures Normalised(c, Some(s), from, to, fromSuffix) == LevelChecked(c, s, !IsSameProviderFamily(from, to))
  {}

  lemma ClampedIsNearest(level: string, s: Support)
    requires LevelIndex(level) >= 0 && HasStandardLevel(s.levels)
    ensures Offers(s, ClampedLevel(level, s.levels))
    ensures NearestOffered(LevelIndex(level), s, LevelIndex(ClampedLevel(level, s.levels)))
  {
    ClampedLevelIsNearest(level, s.levels);
    var pos, ps, best := LevelIndex(level), Positions(s.levels), LevelIndex(ClampedLevel(level, s.levels));
    forall i | 0 <= i < |s.levels| && LevelIndex(TrimSpace(s.levels[i])) >= 0
      ensures !Closer(pos, LevelIndex(TrimSpace(s.levels[i])), best)
    {
      assert ps[i] in ps;
    }
  }

  /** On a model with levels, a level is accepted as it is exactly if the model offers it; another one is
      refused within a provider family, and between families it becomes the offered standard level with
      the least distance, the lower one of two. */
  lemma LevelIsOfferedOrNearest(c: Config, s: Support, from: string, to: string, fromSuffix: bool)
    requires s.levels != [] && c.mode == ModeLevel && c.level != "none" && c.level != "auto"
    ensures var r := Normalised(c, Some(s), from, to, fromSuffix);
            && (Offers(s, c.level) <==> r == Ok(c))
            && (!Offers(s, c.level) && IsSameProviderFamily(from, to) ==> r == Err(LevelNotSupported))
            && (!Offers(s, c.level) && !IsSameProviderFamily(from, to) ==>
                  if LevelIndex(c.level) >= 0 && HasStandardLevel(s.levels)
                  then && r.Ok? && r.config == c.(level := r.config.level) && Offers(s, r.config.level)
                       && NearestOffered(LevelIndex(c.level), s, LevelIndex(r.config.level))
                  else r == Err(LevelNotSupported))
  {
    LevelStage(c, s, from, to, fromSuffix);
    OffersIsSupported(s, c.level);
    if LevelIndex(c.level) >= 0 && HasStandardLevel(s.levels) {
      ClampedIsNearest(c.level, s);
      OffersIsSupported(s, ClampedLevel(c.level, s.levels));
    } else {
      NothingToClampTo(c.level, s.levels);
    }
  }

  lemma OffersIsSupported(s: Support, level: string)
    ensures Offers(s, level) <==> IsLevelSupported(level, s.levels)
  {}

  lemma NothingToClampTo(level: string, levels: seq<string>)
    requires LevelIndex(level) < 0 || !HasStandardLevel(levels)
    ensures ClampedLevel(level, levels) == level
  {
    var best := Nearest(LevelIndex(level), Positions(levels));
    if best >= 0 {
      var i :| 0 <= i < |levels| && Positions(levels)[i] == best;
    }
  }

  /** Position `r` is at least as near to `pos` as every offered standard level, and lower than any other as
      near. */
  ghost predicate NearestOffered(pos: int, s: Support, r: int) {
    forall i :: 0 <= i < |s.levels| && LevelIndex(TrimSpace(s.levels[i])) >= 0 ==>
      var p := LevelIndex(TrimSpace(s.levels[i]));
      Distance(pos, r) < Distance(pos, p) || (Distance(pos, r) == Distance(pos, p) && r <= p)
  }

  /** Without any support for thinking, only asking for none is accepted. */
  lemma UnsupportedAcceptsNone(c: Config, from: string, to: string, fromSuffix: bool)
    ensures Normalised(c, None, from, to, fromSuffix)
            == if c.mode == ModeNone then Ok(c) else Err(ThinkingNotSupported)
  {}

  // ---------- formats ----------

  lemma LowerKeepsSpace(c: char)
    ensures IsSpace(LowerChar(c)) <==> IsSpace(c)
  {}

  lemma {:induction false} TrimLeftFolds(a: string, b: string)
    requires EqualFold(a, b)
    ensures EqualFold(TrimLeft(a), TrimLeft(b))
    decreases |a|
  {
    assert |a| == |ToLower(a)| == |b|;
    if a != "" {
      assert ToLower(a)[0] == ToLower(b)[0];
      LowerKeepsSpace(a[0]);
      LowerKeepsSpace(b[0]);
      assert ToLower(a[1..]) == ToLower(a)[1..] && ToLower(b[1..]) == ToLower(b)[1..];
      if IsSpace(a[0]) { TrimLeftFolds(a[1..], b[1..]); }
    }
  }

  lemma {:induction false} TrimRightFolds(a: string, b: string)
    requires EqualFold(a, b)
    ensures EqualFold(TrimRight(a), TrimRight(b))
    decreases |a|
  {
    assert |a| == |ToLower(a)| == |b|;
    if a != "" {
      var n := |a| - 1;
      assert ToLower(a)[n] == ToLower(b)[n];
      LowerKeepsSpace(a[n]);
      LowerKeepsSpace(b[n]);
      assert ToLower(a[..n]) == ToLower(a)[..n] && ToLower(b[..n]) == ToLower(b)[..n];
      if IsSpace(a[n]) { TrimRightFolds(a[..n], b[..n]); }
    }
  }

  /** The names of the formats may be in upper or lower case. */
  lemma FormatsIgnoreCase(c: Config, support: Option<Support>, from1: string, to1: string, from2: string, to2: string,
                          fromSuffix: bool)
    requires EqualFold(from1, from2) && EqualFold(to1, to2)
    ensures Validated(c, support, from1, to1, fromSuffix) == Validated(c, support, from2, to2, fromSuffix)
  {
    TrimLeftFolds(from1, from2);
    TrimRightFolds(TrimLeft(from1), TrimLeft(from2));
    TrimLeftFolds(to1, to2);
    TrimRightFolds(TrimLeft(to1), TrimLeft(to2));
  }

  /** ... and have white space around them. */
  lemma FormatsIgnoreSpace(c: Config, support: Option<Support>, from: string, to: string, space: string,
                           fromSuffix: bool)
    requires forall k :: 0 <= k < |space| ==> space[k] in " \t\r\n"
    ensures Validated(c, support, space + from + space, space + to + space, fromSuffix)
            == Validated(c, support, from, to, fromSuffix)
  {
    TrimPadded(from, space);
    TrimPadded(to, space);
  }

  lemma {:induction false} TrimLeftPadded(s: string, space: string)
    requires forall k :: 0 <= k < |space| ==> IsSpace(space[k])
    ensures TrimLeft(space + s) == TrimLeft(s)
    decreases |space|
  {
    if space == "" {
      assert space + s == s;
    } else {
      assert (space + s)[1..] == space[1..] + s;
      TrimLeftPadded(s, space[1..]);
    }
  }

  lemma {:induction false} TrimRightPadded(s: string, space: string)
    requires forall k :: 0 <= k < |space| ==> IsSpace(space[k])
    ensures TrimRight(s + space) == TrimRight(s)
    decreases |space|
  {
    if space == "" {
      assert s + space == s;
    } else {
      var n := |space| - 1;
      assert (s + space)[..|s| + n] == s + space[..n];
      TrimRightPadded(s, space[..n]);
    }
  }

  /** Trimming at the left does not see what follows, unless there is nothing else. */
  lemma {:induction false} TrimLeftThenRight(s: string, space: string)
    requires forall k :: 0 <= k < |space| ==> IsSpace(space[k])
    ensures TrimRight(TrimLeft(s + space)) == TrimRight(TrimLeft(s))
    decreases |s|
  {
    if s == "" {
      assert s + space == space && space == space + "";
      TrimLeftPadded("", space);
    } else if IsSpace(s[0]) {
      assert (s + space)[1..] == s[1..] + space;
      TrimLeftThenRight(s[1..], space);
    } else {
      TrimRightPadded(s, space);
    }
  }

  lemma TrimPadded(s: string, space: string)
    requires forall k :: 0 <= k < |space| ==> space[k] in " \t\r\n"
    ensures TrimSpace(space + s + space) == TrimSpace(s)
  {
    assert space + s + space == space + (s + space);
    TrimLeftPadded(s + space, space);
    TrimLeftThenRight(s, space);
  }

  /** Being of the same family is an equivalence. */
  lemma FamiliesPartition(a: string, b: string, c: string)
    ensures IsSameProviderFamily(a, a)
    ensures IsSameProviderFamily(a, b) ==> IsSameProviderFamily(b, a)
    ensures IsSameProviderFamily(a, b) && IsSameProviderFamily(b, c) ==> IsSameProviderFamily(a, c)
    ensures IsSameProviderFamily("gemini", "gemini-cli") && IsSameProviderFamily("gemini", "antigravity")
    ensures IsSameProviderFamily("openai", "openai-response") && IsSameProviderFamily("openai", "codex")
    ensures !IsSameProviderFamily("gemini", "openai")
    ensures IsSameProviderFamily("claude", a) ==> a == "claude"
  {
    assert "gemini"[0] == 'g' && "openai"[0] == 'o' && "antigravity"[0] == 'a' && "codex"[0] == 'c';
    assert "claude"[1] == 'l' && "codex"[1] == 'o' && "openai-response"[0] == 'o' && "gemini-cli"[0] == 'g';
  }

  // ---------- suffixes ----------

  function Codes(raw: string): seq<int> {
    seq(|raw|, i requires 0 <= i < |raw| => raw[i] as int)
  }

  /** What a suffix asks for: a mode by its name, in any spelling, or by -1; a level; or a number of tokens, of
      which zero means none. Anything else asks for nothing. */
  lemma SuffixMeans(raw: string)
    ensures var c, l := ParseSuffixToConfig(raw), ToLower(raw);
            && (l == "none" ==> c == Config(ModeNone, 0, ""))
            && (l == "auto" || l == "-1" ==> c == Config(ModeAuto, -1, ""))
            && (l in ["minimal", "low", "medium", "high", "xhigh", "max"] ==> c == Config(ModeLevel, 0, l))
            && (raw != "" && Digits(Codes(raw)).Some? && Digits(Codes(raw)).value <= MAX_INT ==>
                  c == if Digits(Codes(raw)).value == 0 then Config(ModeNone, 0, "")
                       else Config(ModeBudget, Digits(Codes(raw)).value, ""))
            && (l !in ["none", "auto", "-1", "minimal", "low", "medium", "high", "xhigh", "max"] ==>
                  Atoi(Codes(raw)).None? || Atoi(Codes(raw)).value < 0 ==> !HasThinkingConfig(c))
  {
    assert ["minimal", "low", "medium", "high", "xhigh", "max"] == STANDARD;
    if raw != "" && Digits(Codes(raw)).Some? { DigitsAreNoWord(raw); }
  }

  /** A number is no word. */
  lemma DigitsAreNoWord(raw: string)
    requires raw != "" && Digits(Codes(raw)).Some?
    ensures IsDigit(raw[0] as int) && ToLower(raw) !in STANDARD && ToLower(raw) !in ["none", "auto", "-1"]
  {
    AllDigits(Codes(raw));
    assert Codes(raw)[0] == raw[0] as int && ToLower(raw)[0] == raw[0];
    assert forall i :: 0 <= i < |STANDARD| ==> !IsDigit(STANDARD[i][0] as int);
    assert !IsDigit("none"[0] as int) && !IsDigit("auto"[0] as int) && !IsDigit("-1"[0] as int);
  }

  lemma {:induction false} AllDigits(codes: seq<int>)
    requires Digits(codes).Some?
    ensures forall i :: 0 <= i < |codes| ==> IsDigit(codes[i])
  {
    if codes != [] { AllDigits(codes[..|codes| - 1]); }
  }
}
