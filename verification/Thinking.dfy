/** Normalising a thinking configuration against what a model supports. */
module Thinking {
  import opened Text

  datatype Mode = ModeBudget | ModeLevel | ModeNone | ModeAuto

  datatype Config = Config(mode: Mode, budget: int, level: string)

  datatype Support = Support(min: int, max: int, zeroAllowed: bool, dynamicAllowed: bool, levels: seq<string>)

  datatype Model = Model(id: string, thinking: Option<Support>)

  datatype Error = ErrThinkingNotSupported | ErrUnknownLevel | ErrLevelNotSupported | ErrBudgetOutOfRange

  datatype Result = Ok(config: Config) | Err(error: Error)

  // ----- Levels and budgets -----

  const STANDARD: seq<string> := ["minimal", "low", "medium", "high", "xhigh", "max"]

  function LevelToBudget(level: string): Option<int> {
    var l := ToLower(level);
    if l == "none" then Some(0)
    else if l == "auto" then Some(-1)
    else if l == "minimal" then Some(512)
    else if l == "low" then Some(1024)
    else if l == "medium" then Some(8192)
    else if l == "high" then Some(24576)
    else if l == "xhigh" then Some(32768)
    else if l == "max" then Some(128000)
    else None
  }

  // Up to 512 tokens are minimal, 1024 low, 8192 medium, 24576 high; more are xhigh.
  function BudgetPlace(budget: int): (i: nat)
    ensures i < |STANDARD|
  {
    if budget <= 512 then 0 else if budget <= 1024 then 1 else if budget <= 8192 then 2
    else if budget <= 24576 then 3 else 4
  }

  const MEDIUM: string := STANDARD[2]

  function BudgetToLevel(budget: int): Option<string> {
    if budget < -1 then None
    else if budget == -1 then Some("auto")
    else if budget == 0 then Some("none")
    else Some(STANDARD[BudgetPlace(budget)])
  }

  // detectModelCapability, of a model with thinking support.
  datatype Capability = NoThinking | BudgetOnly | LevelOnly | Hybrid

  function SupportCapability(s: Support): Capability {
    var hasBudget, hasLevels := s.min > 0 || s.max > 0, |s.levels| > 0;
    if hasBudget && hasLevels then Hybrid
    else if hasBudget then BudgetOnly
    else if hasLevels then LevelOnly
    else NoThinking
  }

  predicate IsLevelSupported(level: string, levels: seq<string>) {
    exists i :: 0 <= i < |levels| && EqualFold(level, Trim(levels[i]))
  }

  function LevelIndexFrom(level: string, i: nat): (r: int)
    requires i <= |STANDARD|
    ensures r == -1 || (i <= r < |STANDARD| && EqualFold(level, STANDARD[r]))
    ensures r == -1 ==> forall k :: i <= k < |STANDARD| ==> !EqualFold(level, STANDARD[k])
    decreases |STANDARD| - i, level
  {
    if i == |STANDARD| then -1 else if EqualFold(level, STANDARD[i]) then i else LevelIndexFrom(level, i + 1)
  }

  function LevelIndex(level: string): int {
    LevelIndexFrom(level, 0)
  }

  function Abs(x: int): int {
    if x < 0 then -x else x
  }

  // Of two places in the standard order, the one nearer to pos, the lower one on a tie; -1 is no place.
  function Nearer(pos: int, best: int, idx: int): int {
    if idx == -1 then best
    else if best == -1 || Abs(pos - idx) < Abs(pos - best) || (Abs(pos - idx) == Abs(pos - best) && idx < best) then idx
    else best
  }

  function Nearest(pos: int, levels: seq<string>): (r: int)
    ensures -1 <= r < |STANDARD|
  {
    if levels == [] then -1
    else Nearer(pos, Nearest(pos, levels[..|levels| - 1]), LevelIndex(Trim(levels[|levels| - 1])))
  }

  function ClampedLevel(level: string, levels: seq<string>): string {
    if levels == [] || IsLevelSupported(level, levels) || LevelIndex(level) == -1 then level
    else
      var best := Nearest(LevelIndex(level), levels);
      if best >= 0 then STANDARD[best] else level
  }

  lemma NearestStep(pos: int, levels: seq<string>, i: nat)
    requires i < |levels|
    ensures Nearest(pos, levels[..i + 1]) == Nearer(pos, Nearest(pos, levels[..i]), LevelIndex(Trim(levels[i])))
  {
    assert levels[..i + 1][..i] == levels[..i];
  }

  function Distance(pos: int, best: int): int {
    if best == -1 then |STANDARD| + 1 else Abs(pos - best)
  }

  // One round of the search.
  method Consider(pos: int, idx: int, bestIdx: int, bestDist: int) returns (bestIdx': int, bestDist': int)
    requires 0 <= pos < |STANDARD| && -1 <= idx < |STANDARD| && -1 <= bestIdx < |STANDARD|
    requires bestDist == Distance(pos, bestIdx)
    ensures bestIdx' == Nearer(pos, bestIdx, idx) && bestDist' == Distance(pos, bestIdx')
  {
    bestIdx', bestDist' := bestIdx, bestDist;
    if idx != -1 {
      var dist := Abs(pos - idx);
      if dist < bestDist || (dist == bestDist && idx < bestIdx) {
        bestIdx', bestDist' := idx, dist;
      }
    }
  }

  // The search loop of clampLevel.
  method FindNearest(pos: int, supported: seq<string>) returns (bestIdx: int)
    requires 0 <= pos < |STANDARD|
    ensures bestIdx == Nearest(pos, supported)
  {
    bestIdx := -1;
    var bestDist := |STANDARD| + 1;
    for i := 0 to |supported|
      invariant bestIdx == Nearest(pos, supported[..i])
      invariant bestDist == Distance(pos, bestIdx)
    {
      NearestStep(pos, supported, i);
      bestIdx, bestDist := Consider(pos, LevelIndex(Trim(supported[i])), bestIdx, bestDist);
    }
    assert supported[..|supported|] == supported;
  }

  // clampLevel.
  method ClampLevel(level: string, supported: seq<string>) returns (clamped: string)
    ensures clamped == ClampedLevel(level, supported)
  {
    if |supported| == 0 || IsLevelSupported(level, supported) {
      return level;
    }
    var pos := LevelIndex(level);
    if pos == -1 {
      return level;
    }
    var bestIdx := FindNearest(pos, supported);
    if bestIdx >= 0 {
      return STANDARD[bestIdx];
    }
    return level;
  }

  // clampBudget.
  function ClampBudget(value: int, s: Support): int {
    if value == -1 then value
    else if value == 0 && !s.zeroAllowed then s.min
    else if s.min == 0 && s.max == 0 then value
    else if value < s.min then (if value == 0 && s.zeroAllowed then 0 else s.min)
    else if value > s.max then s.max
    else value
  }

  // ----- Provider families -----

  predicate IsGeminiFamily(provider: string) {
    provider == "gemini" || provider == "gemini-cli" || provider == "antigravity"
  }

  predicate IsOpenAIFamily(provider: string) {
    provider == "openai" || provider == "openai-response" || provider == "codex"
  }

  predicate IsSameProviderFamily(from: string, to: string) {
    from == to || (IsGeminiFamily(from) && IsGeminiFamily(to)) || (IsOpenAIFamily(from) && IsOpenAIFamily(to))
  }

  // Go's division truncates toward zero.
  function Half(x: int): int {
    if x >= 0 then x / 2 else -((-x) / 2)
  }

  // convertAutoToMidRange.
  function MidRange(c: Config, s: Support): Config {
    if |s.levels| > 0 && s.min == 0 && s.max == 0 then c.(mode := ModeLevel, level := MEDIUM, budget := 0)
    else
      var mid := Half(s.min + s.max);
      if mid <= 0 && s.zeroAllowed then c.(mode := ModeNone, budget := 0)
      else if mid <= 0 then c.(mode := ModeBudget, budget := s.min)
      else c.(mode := ModeBudget, budget := mid)
  }

  // ----- What validation does, step by step -----

  // The request as the capability expects it; derived tells whether a budget came from a level.
  datatype Request = Request(config: Config, derived: bool) | Refused(error: Error)

  function ForCapability(c: Config, s: Support): Request {
    match SupportCapability(s)
    case BudgetOnly =>
      if c.mode == ModeLevel && c.level != "auto" then
        match LevelToBudget(c.level)
        case None => Refused(ErrUnknownLevel)
        case Some(b) => Request(Config(ModeBudget, b, ""), true)
      else Request(c, false)
    case LevelOnly =>
      if c.mode == ModeBudget then
        match BudgetToLevel(c.budget)
        case None => Refused(ErrUnknownLevel)
        case Some(l) => Request(Config(ModeLevel, 0, ClampedLevel(l, s.levels)), false)
      else Request(c, false)
    case _ => Request(c, false)
  }

  // "none", "auto" and a zero budget are modes of their own.
  function Specials(c: Config): Config {
    if c.mode == ModeLevel && c.level == "none" then Config(ModeNone, 0, "")
    else if c.mode == ModeLevel && c.level == "auto" then Config(ModeAuto, -1, "")
    else if c.mode == ModeBudget && c.budget == 0 then Config(ModeNone, 0, "")
    else c
  }

  function CheckLevel(c: Config, s: Support, clamp: bool): Result {
    if |s.levels| > 0 && c.mode == ModeLevel && !IsLevelSupported(c.level, s.levels) then
      var c' := if clamp then c.(level := ClampedLevel(c.level, s.levels)) else c;
      if IsLevelSupported(c'.level, s.levels) then Ok(c') else Err(ErrLevelNotSupported)
    else Ok(c)
  }

  predicate OutOfRange(c: Config, s: Support) {
    && c.mode == ModeBudget && (s.min != 0 || s.max != 0)
    && (c.budget < s.min || c.budget > s.max || (c.budget == 0 && !s.zeroAllowed))
  }

  function Settle(c: Config, s: Support, claude: bool): Config {
    var c := if c.mode == ModeAuto && !s.dynamicAllowed then MidRange(c, s) else c;
    if c.mode == ModeNone && claude then c.(budget := 0, level := "")
    else
      var c := if c.mode == ModeLevel then c else c.(budget := ClampBudget(c.budget, s));
      if c.mode == ModeNone && c.budget > 0 && |s.levels| > 0 then c.(level := s.levels[0]) else c
  }

  function Fold(format: string): string {
    ToLower(Trim(format))
  }

  predicate ClampsLevels(s: Support, from: string, to: string) {
    (SupportCapability(s) == LevelOnly || SupportCapability(s) == Hybrid) && !IsSameProviderFamily(from, to)
  }

  predicate Strict(from: string, to: string, fromSuffix: bool) {
    !fromSuffix && from != "" && IsSameProviderFamily(from, to)
  }

  // Given whether levels may be clamped, whether the budget range is strict, and whether it is for claude.
  function Validated(c: Config, s: Support, clamp: bool, strict: bool, claude: bool): Result {
    match ForCapability(c, s)
    case Refused(e) => Err(e)
    case Request(c1, derived) =>
      match CheckLevel(Specials(c1), s, clamp)
      case Err(e) => Err(e)
      case Ok(c2) =>
        if strict && !derived && OutOfRange(c2, s) then Err(ErrBudgetOutOfRange) else Ok(Settle(c2, s, claude))
  }

  function ValidateSupported(c: Config, s: Support, from: string, to: string, fromSuffix: bool): Result {
    Validated(c, s, ClampsLevels(s, from, to), Strict(from, to, fromSuffix), to == "claude")
  }

  function Validate(c: Config, model: Option<Model>, fromFormat: string, toFormat: string, fromSuffix: bool): Result {
    if model.None? || model.value.thinking.None? then
      if c.mode != ModeNone then Err(ErrThinkingNotSupported) else Ok(c)
    else ValidateSupported(c, model.value.thinking.value, Fold(fromFormat), Fold(toFormat), fromSuffix)
  }

  // The switch over the capability and the special values.
  method Prepare(c: Config, s: Support) returns (refused: bool, config: Config, budgetDerivedFromLevel: bool)
    ensures refused <==> ForCapability(c, s).Refused?
    ensures refused ==> ForCapability(c, s) == Refused(ErrUnknownLevel)
    ensures !refused ==> ForCapability(c, s).derived == budgetDerivedFromLevel
    ensures !refused ==> config == Specials(ForCapability(c, s).config)
  {
    refused, config, budgetDerivedFromLevel := false, c, false;
    match SupportCapability(s) {
    case BudgetOnly =>
      if config.mode == ModeLevel && config.level != "auto" {
        var budget := LevelToBudget(config.level);
        if budget.None? {
          refused := true;
          return;
        }
        config := Config(ModeBudget, budget.value, "");
        budgetDerivedFromLevel := true;
      }
    case LevelOnly =>
      if config.mode == ModeBudget {
        var level := BudgetToLevel(config.budget);
        if level.None? {
          refused := true;
          return;
        }
        var clamped := ClampLevel(level.value, s.levels);
        config := Config(ModeLevel, 0, clamped);
      }
    case _ =>
    }
    if config.mode == ModeLevel && config.level == "none" {
      config := Config(ModeNone, 0, "");
    }
    if config.mode == ModeLevel && config.level == "auto" {
      config := Config(ModeAuto, -1, "");
    }
    if config.mode == ModeBudget && config.budget == 0 {
      config := config.(mode := ModeNone, level := "");
    }
  }

  // The final conversion and clamping.
  method Finish(c: Config, s: Support, to: string) returns (config: Config)
    ensures config == Settle(c, s, to == "claude")
  {
    config := c;
    if config.mode == ModeAuto && !s.dynamicAllowed {
      config := MidRange(config, s);
    }
    if config.mode == ModeNone && to == "claude" {
      config := config.(budget := 0, level := "");
    } else {
      if config.mode != ModeLevel {
        config := config.(budget := ClampBudget(config.budget, s));
      }
      if config.mode == ModeNone && config.budget > 0 && |s.levels| > 0 {
        config := config.(level := s.levels[0]);
      }
    }
  }

  // ValidateConfig.
  method ValidateConfig(config: Config, model: Option<Model>, fromFormat: string, toFormat: string, fromSuffix: bool)
    returns (r: Result)
    ensures r == Validate(config, model, fromFormat, toFormat, fromSuffix)
  {
    var from, to := Fold(fromFormat), Fold(toFormat);
    if model.None? || model.value.thinking.None? {
      if config.mode != ModeNone {
        return Err(ErrThinkingNotSupported);
      }
      return Ok(config);
    }
    var support := model.value.thinking.value;
    var toCapability := SupportCapability(support);
    var toHasLevelSupport := toCapability == LevelOnly || toCapability == Hybrid;
    var allowClampUnsupported := toHasLevelSupport && !IsSameProviderFamily(from, to);
    var strictBudget := !fromSuffix && from != "" && IsSameProviderFamily(from, to);

    var refused, config, budgetDerivedFromLevel := Prepare(config, support);
    if refused {
      return Err(ErrUnknownLevel);
    }
    if |support.levels| > 0 && config.mode == ModeLevel && !IsLevelSupported(config.level, support.levels) {
      if allowClampUnsupported {
        var clamped := ClampLevel(config.level, support.levels);
        config := config.(level := clamped);
      }
      if !IsLevelSupported(config.level, support.levels) {
        return Err(ErrLevelNotSupported);
      }
    }
    if strictBudget && config.mode == ModeBudget && !budgetDerivedFromLevel && OutOfRange(config, support) {
      return Err(ErrBudgetOutOfRange);
    }
    config := Finish(config, support, to);
    return Ok(config);
  }
}
