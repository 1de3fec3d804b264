/** What a validated thinking configuration may rely on, and exactly where it may not. */
module ThinkingProofs {
  import opened Text
  import opened Thinking

  // ----- Clamping a level finds the nearest supported one -----

  // Where the supported levels stand in the standard order; -1 for a level that is not standard.
  function Places(levels: seq<string>): (r: seq<int>)
    ensures |r| == |levels|
  {
    if levels == [] then [] else Places(levels[..|levels| - 1]) + [Place(levels[|levels| - 1])]
  }

  function Place(level: string): int {
    LevelIndex(Trim(level))
  }

  lemma {:induction false} PlaceAt(levels: seq<string>, i: nat)
    requires i < |levels|
    ensures Places(levels)[i] == Place(levels[i])
    decreases |levels|
  {
    if i < |levels| - 1 {
      PlaceAt(levels[..|levels| - 1], i);
    }
  }

  // best is nearer to pos than idx, or as near and not higher.
  predicate Beats(pos: int, best: int, idx: int) {
    Abs(pos - best) < Abs(pos - idx) || (Abs(pos - best) == Abs(pos - idx) && best <= idx)
  }

  // best is one of the places and beats every other; -1 when there is none.
  ghost predicate IsNearest(pos: int, places: seq<int>, best: int) {
    if best == -1 then forall i :: 0 <= i < |places| ==> places[i] == -1
    else best in places && forall i :: 0 <= i < |places| && places[i] != -1 ==> Beats(pos, best, places[i])
  }

  lemma NearestSnoc(pos: int, places: seq<int>, best: int, last: int)
    requires IsNearest(pos, places, best)
    ensures IsNearest(pos, places + [last], Nearer(pos, best, last))
  {
  }

  lemma {:induction false} NearestIsNearest(pos: int, levels: seq<string>)
    ensures IsNearest(pos, Places(levels), Nearest(pos, levels))
  {
    if levels != [] {
      var front := levels[..|levels| - 1];
      NearestIsNearest(pos, front);
      NearestSnoc(pos, Places(front), Nearest(pos, front), Place(levels[|levels| - 1]));
    }
  }

  ghost predicate OffersStandard(levels: seq<string>) {
    exists i :: 0 <= i < |levels| && Place(levels[i]) != -1
  }

  lemma OffersPlace(levels: seq<string>)
    requires OffersStandard(levels)
    ensures exists i :: 0 <= i < |levels| && Places(levels)[i] != -1
  {
    var i :| 0 <= i < |levels| && Place(levels[i]) != -1;
    PlaceAt(levels, i);
  }

  lemma NoPlaces(levels: seq<string>, best: int)
    requires !OffersStandard(levels) && best in Places(levels)
    ensures best == -1
  {
    var i :| 0 <= i < |levels| && Places(levels)[i] == best;
    PlaceAt(levels, i);
  }

  lemma PlaceIsStandard(level: string)
    requires Place(level) != -1
    ensures 0 <= Place(level) < |STANDARD| && EqualFold(STANDARD[Place(level)], Trim(level))
  {
  }

  lemma SupportedPlace(levels: seq<string>, best: int)
    requires best != -1 && best in Places(levels)
    ensures 0 <= best < |STANDARD| && IsLevelSupported(STANDARD[best], levels)
  {
    var i :| 0 <= i < |levels| && Places(levels)[i] == best;
    PlaceAt(levels, i);
    PlaceIsStandard(levels[i]);
  }

  // A clamped level is supported as soon as some supported level is a standard one; then it is the
  // nearest there is, the lower one on a tie.
  lemma ClampFindsNearest(level: string, levels: seq<string>)
    requires LevelIndex(level) != -1 && OffersStandard(levels)
    ensures IsLevelSupported(ClampedLevel(level, levels), levels)
    ensures IsLevelSupported(level, levels) ==> ClampedLevel(level, levels) == level
    ensures !IsLevelSupported(level, levels) ==> var best := Nearest(LevelIndex(level), levels);
              best != -1 && ClampedLevel(level, levels) == STANDARD[best]
                && IsNearest(LevelIndex(level), Places(levels), best)
  {
    var pos := LevelIndex(level);
    NearestIsNearest(pos, levels);
    OffersPlace(levels);
    if !IsLevelSupported(level, levels) {
      SupportedPlace(levels, Nearest(pos, levels));
    }
  }

  // ----- Soundness of a successful validation -----

  // A configuration as its type documents it; a level may be any text.
  ghost predicate Canonical(c: Config) {
    match c.mode
    case ModeNone => c.budget == 0
    case ModeAuto => c.budget == -1
    case ModeBudget => c.budget > 0
    case ModeLevel => true
  }

  // A budget below -1, which request bodies may name and the readers hand on.
  ghost predicate Negative(c: Config) {
    c.mode == ModeBudget && c.budget < -1
  }

  // What the readers of requests and of model suffixes hand over.
  ghost predicate Received(c: Config) {
    Canonical(c) || Negative(c)
  }

  // The range is one; it may be missing (from 0 to 0), and so may the levels, and even both.
  ghost predicate WellFormed(s: Support) {
    0 <= s.min <= s.max
  }

  ghost predicate Ranged(s: Support) {
    WellFormed(s) && SupportCapability(s) != NoThinking
  }

  // What the provider code may rely on.
  ghost predicate Sound(r: Config, s: Support, to: string) {
    SoundFor(r, s, to == "claude")
  }

  ghost predicate SoundFor(r: Config, s: Support, claude: bool) {
    match r.mode
    case ModeBudget => s.min <= r.budget <= s.max
    case ModeLevel => IsLevelSupported(r.level, s.levels)
    case ModeAuto => s.dynamicAllowed && r.budget == -1
    case ModeNone => r.budget == if !claude && !s.zeroAllowed then s.min else 0
  }

  predicate AsksAuto(c: Config) {
    c.mode == ModeAuto || (c.mode == ModeLevel && c.level == "auto")
  }

  // Automatic thinking on a level-only model becomes "medium" without a look at the levels.
  predicate MediumTrap(c: Config, s: Support) {
    AsksAuto(c) && !s.dynamicAllowed && SupportCapability(s) == LevelOnly && !IsLevelSupported(MEDIUM, s.levels)
  }

  // A level "AUTO" in capitals on a budget-only model becomes the budget -1.
  predicate CaseTrap(c: Config, s: Support) {
    SupportCapability(s) == BudgetOnly && c.mode == ModeLevel && c.level != "auto" && ToLower(c.level) == "auto"
  }

  // A support with neither a range nor levels lets any budget and any level through.
  predicate BareTrap(c: Config, s: Support) {
    SupportCapability(s) == NoThinking && (c.mode == ModeBudget || (c.mode == ModeLevel && !Special(c.level)))
  }

  predicate Special(level: string) {
    level == "none" || level == "auto"
  }

  // The level after the capability step, the specials and the level check is supported or gone.
  lemma CheckedLevel(c: Config, s: Support, clamp: bool)
    ensures var r := CheckLevel(c, s, clamp);
            r.Ok? ==> r.config.mode == c.mode && r.config.budget == c.budget &&
                      (c.mode == ModeLevel && |s.levels| > 0 ==> IsLevelSupported(r.config.level, s.levels)) &&
                      (c.mode != ModeLevel || |s.levels| == 0 ==> r.config == c)
  {
  }

  // What goes into the last step: no special values are left in disguise.
  ghost predicate Plain(c: Config) {
    match c.mode
    case ModeNone => c.budget == 0
    case ModeAuto => c.budget == -1
    case ModeBudget => c.budget > 0
    case ModeLevel => c.level != "none" && c.level != "auto"
  }

  lemma SettleSound(c: Config, s: Support, claude: bool)
    requires Plain(c) && WellFormed(s)
    requires c.mode == ModeLevel ==> IsLevelSupported(c.level, s.levels)
    requires c.mode == ModeBudget ==> s.max > 0
    ensures SoundFor(Settle(c, s, claude), s, claude) <==>
            !(c.mode == ModeAuto && !s.dynamicAllowed && SupportCapability(s) == LevelOnly
              && !IsLevelSupported(MEDIUM, s.levels))
  {
  }

  lemma ClampedIsNoSpecial(level: string, levels: seq<string>)
    requires level != "none" && level != "auto"
    ensures ClampedLevel(level, levels) != "none" && ClampedLevel(level, levels) != "auto"
  {
    assert forall i :: 0 <= i < |STANDARD| ==> STANDARD[i] != "none" && STANDARD[i] != "auto";
  }

  lemma StandardIsPlain(i: nat)
    requires i < |STANDARD|
    ensures STANDARD[i] != "none" && STANDARD[i] != "auto"
  {
  }

  // ----- Budgets below -1 -----

  // Within a family they are refused, for a model with a range; otherwise they become its minimum.
  lemma NegativeSettles(c: Config, s: Support, clamp: bool, strict: bool, claude: bool)
    requires Negative(c) && WellFormed(s)
    ensures Validated(c, s, clamp, strict, claude) ==
            match SupportCapability(s)
            case LevelOnly => Err(ErrUnknownLevel)
            case NoThinking => Ok(c)
            case _ => if strict then Err(ErrBudgetOutOfRange) else Ok(c.(budget := s.min))
  {
  }

  // ----- Models with neither a range nor levels -----

  lemma BareSettles(c: Config, s: Support, clamp: bool, strict: bool, claude: bool)
    requires SupportCapability(s) == NoThinking && WellFormed(s)
    ensures Validated(c, s, clamp, strict, claude) == Ok(Settle(Specials(c), s, claude))
  {
  }

  lemma BareSound(c: Config, s: Support, claude: bool)
    requires SupportCapability(s) == NoThinking && WellFormed(s) && Received(c)
    ensures SoundFor(Settle(Specials(c), s, claude), s, claude) <==> !BareTrap(c, s)
  {
  }

  lemma BareAgain(c: Config, s: Support, claude: bool)
    requires SupportCapability(s) == NoThinking && WellFormed(s) && Received(c)
    ensures var r := Settle(Specials(c), s, claude);
            Settle(Specials(r), s, claude) == r <==> !HalfTrap(c, s)
  {
  }

  // ----- Everything else -----

  // What the capability step and the specials leave.
  ghost predicate PreparedFor(c: Config, s: Support, p: Config, derived: bool) {
    if CaseTrap(c, s) then p == Config(ModeBudget, -1, "") && derived
    else Plain(p) && (p.mode == ModeAuto <==> AsksAuto(c)) &&
         (p.mode == ModeBudget ==> s.max > 0) && (p.mode == ModeLevel ==> |s.levels| > 0)
  }

  lemma PreparedBudgetOnly(c: Config, s: Support)
    requires Canonical(c) && WellFormed(s) && ForCapability(c, s).Request? && SupportCapability(s) == BudgetOnly
    ensures PreparedFor(c, s, Specials(ForCapability(c, s).config), ForCapability(c, s).derived)
  {
  }

  lemma PreparedLevelOnly(c: Config, s: Support)
    requires Canonical(c) && WellFormed(s) && ForCapability(c, s).Request? && SupportCapability(s) == LevelOnly
    ensures PreparedFor(c, s, Specials(ForCapability(c, s).config), ForCapability(c, s).derived)
  {
    if c.mode == ModeBudget {
      StandardIsPlain(BudgetPlace(c.budget));
      ClampedIsNoSpecial(STANDARD[BudgetPlace(c.budget)], s.levels);
    }
  }

  lemma Prepared(c: Config, s: Support)
    requires Canonical(c) && Ranged(s) && ForCapability(c, s).Request?
    ensures PreparedFor(c, s, Specials(ForCapability(c, s).config), ForCapability(c, s).derived)
  {
    if SupportCapability(s) == BudgetOnly {
      PreparedBudgetOnly(c, s);
    } else if SupportCapability(s) == LevelOnly {
      PreparedLevelOnly(c, s);
    }
  }

  // What a validation that succeeds settles, outside the case trap.
  lemma ValidatedSettles(c: Config, s: Support, clamp: bool, strict: bool, claude: bool) returns (checked: Config)
    requires Canonical(c) && Ranged(s) && Validated(c, s, clamp, strict, claude).Ok? && !CaseTrap(c, s)
    ensures Plain(checked) && Validated(c, s, clamp, strict, claude) == Ok(Settle(checked, s, claude))
    ensures checked.mode == ModeLevel ==> IsLevelSupported(checked.level, s.levels) && |s.levels| > 0
    ensures checked.mode == ModeBudget ==> s.max > 0
    ensures checked.mode == ModeAuto <==> AsksAuto(c)
  {
    var p := Specials(ForCapability(c, s).config);
    Prepared(c, s);
    CheckedLevel(p, s, clamp);
    CheckedPlain(p, s, clamp);
    checked := CheckLevel(p, s, clamp).config;
  }

  // In the case trap a budget of -1 goes through.
  lemma CaseTrapPasses(c: Config, s: Support, clamp: bool, strict: bool, claude: bool)
    requires Canonical(c) && WellFormed(s) && CaseTrap(c, s)
    ensures Validated(c, s, clamp, strict, claude) == Ok(Config(ModeBudget, -1, ""))
  {
    Prepared(c, s);
  }

  lemma SoundWhen(c: Config, s: Support, clamp: bool, strict: bool, claude: bool)
    requires Received(c) && WellFormed(s) && Validated(c, s, clamp, strict, claude).Ok?
    ensures SoundFor(Validated(c, s, clamp, strict, claude).config, s, claude) <==>
            !MediumTrap(c, s) && !CaseTrap(c, s) && !BareTrap(c, s)
  {
    if SupportCapability(s) == NoThinking {
      BareSettles(c, s, clamp, strict, claude);
      BareSound(c, s, claude);
    } else if Negative(c) {
      NegativeSettles(c, s, clamp, strict, claude);
    } else if CaseTrap(c, s) {
      CaseTrapPasses(c, s, clamp, strict, claude);
    } else {
      var checked := ValidatedSettles(c, s, clamp, strict, claude);
      SettleSound(checked, s, claude);
    }
  }

  // Whatever validation lets through is sound, the three traps apart, and never in a trap.
  lemma SoundExactly(c: Config, s: Support, from: string, to: string, fromSuffix: bool)
    requires Received(c) && WellFormed(s) && ValidateSupported(c, s, from, to, fromSuffix).Ok?
    ensures Sound(ValidateSupported(c, s, from, to, fromSuffix).config, s, to) <==>
            !MediumTrap(c, s) && !CaseTrap(c, s) && !BareTrap(c, s)
  {
    SoundWhen(c, s, ClampsLevels(s, from, to), Strict(from, to, fromSuffix), to == "claude");
  }

  lemma CheckedPlain(p: Config, s: Support, clamp: bool)
    requires Plain(p) && CheckLevel(p, s, clamp).Ok?
    ensures Plain(CheckLevel(p, s, clamp).config)
  {
    if p.mode == ModeLevel {
      ClampedIsNoSpecial(p.level, s.levels);
    }
  }

  // ----- Validating a result again -----

  // Automatic thinking on the range [0,1], or on a model with neither range nor levels, becomes the
  // budget 0 where zero is not allowed; and the budget 0 means disabled.
  predicate HalfTrap(c: Config, s: Support) {
    && AsksAuto(c) && !s.dynamicAllowed && !s.zeroAllowed
    && s.min == 0 && s.max <= 1 && SupportCapability(s) != LevelOnly
  }

  // So does a budget below -1 where the range starts at zero.
  predicate NegativeTrap(c: Config, s: Support) {
    c.mode == ModeBudget && c.budget < -1 && s.min == 0 && SupportCapability(s) != NoThinking
  }

  // A result that validation leaves as it is.
  ghost predicate Stable(r: Config, s: Support, claude: bool) {
    && SoundFor(r, s, claude)
    && match r.mode
       case ModeBudget => r.budget > 0
       case ModeLevel => r.level != "none" && r.level != "auto" && |s.levels| > 0
       case ModeAuto => true
       case ModeNone =>
         && (claude ==> r.level == "")
         && (!claude && r.budget > 0 && |s.levels| > 0 ==> r.level == s.levels[0])
  }

  lemma MediumIsPlain()
    ensures MEDIUM != "none" && MEDIUM != "auto"
  {
    StandardIsPlain(2);
  }

  lemma SettleStable(c: Config, s: Support, claude: bool)
    requires Plain(c) && Ranged(s)
    requires c.mode == ModeLevel ==> IsLevelSupported(c.level, s.levels) && |s.levels| > 0
    requires c.mode == ModeBudget ==> s.max > 0
    requires SoundFor(Settle(c, s, claude), s, claude)
    ensures Stable(Settle(c, s, claude), s, claude) <==>
            !(c.mode == ModeAuto && !s.dynamicAllowed && !s.zeroAllowed && s.min == 0 && s.max == 1)
  {
    MediumIsPlain();
  }

  lemma StableStays(r: Config, s: Support, clamp: bool, strict: bool, claude: bool)
    requires WellFormed(s) && Stable(r, s, claude)
    ensures Validated(r, s, clamp, strict, claude) == Ok(r)
  {
  }

  // A budget of zero or an unsupported level does not come out as it went in.
  lemma LevelOnlyNeverBudget(p: Config, s: Support, claude: bool)
    requires p.mode != ModeBudget && SupportCapability(s) == LevelOnly && WellFormed(s)
    ensures Settle(p, s, claude).mode != ModeBudget
  {
  }

  lemma NoneStaysNone(p: Config, s: Support, claude: bool)
    requires p.mode == ModeNone
    ensures Settle(p, s, claude).mode == ModeNone
  {
  }

  lemma ZeroPrepared(r: Config, s: Support)
    requires r.mode == ModeBudget && r.budget == 0 && ForCapability(r, s).Request?
    ensures var p := Specials(ForCapability(r, s).config);
            if SupportCapability(s) == LevelOnly then p.mode != ModeBudget else p.mode == ModeNone
  {
  }

  lemma ZeroChanges(r: Config, s: Support, clamp: bool, strict: bool, claude: bool)
    requires WellFormed(s) && r.mode == ModeBudget && r.budget == 0
    ensures Validated(r, s, clamp, strict, claude) != Ok(r)
  {
    if Validated(r, s, clamp, strict, claude).Ok? {
      var p := Specials(ForCapability(r, s).config);
      ZeroPrepared(r, s);
      CheckedLevel(p, s, clamp);
      var checked := CheckLevel(p, s, clamp).config;
      if SupportCapability(s) == LevelOnly {
        LevelOnlyNeverBudget(checked, s, claude);
      } else {
        NoneStaysNone(checked, s, claude);
      }
    }
  }

  lemma LevelStays(p: Config, s: Support, claude: bool)
    requires p.mode == ModeLevel
    ensures Settle(p, s, claude) == p
  {
  }

  lemma LevelPrepared(r: Config, s: Support)
    requires r.mode == ModeLevel && r.level != "none" && r.level != "auto" && |s.levels| > 0
    ensures ForCapability(r, s) == Request(r, false) && Specials(r) == r
  {
  }

  lemma UnsupportedChanges(r: Config, s: Support, clamp: bool, strict: bool, claude: bool)
    requires r.mode == ModeLevel && r.level != "none" && r.level != "auto" && SupportCapability(s) == LevelOnly
    requires !IsLevelSupported(r.level, s.levels)
    ensures Validated(r, s, clamp, strict, claude) != Ok(r)
  {
    LevelPrepared(r, s);
    CheckedLevel(r, s, clamp);
    if CheckLevel(r, s, clamp).Ok? {
      LevelStays(CheckLevel(r, s, clamp).config, s, claude);
    }
  }

  lemma NegativeAgain(c: Config, s: Support, clamp: bool, strict: bool, claude: bool)
    requires Negative(c) && Ranged(s) && Validated(c, s, clamp, strict, claude).Ok?
    ensures var r := Validated(c, s, clamp, strict, claude).config;
            Validated(r, s, clamp, strict, claude) == Ok(r) <==> s.min != 0
  {
    NegativeSettles(c, s, clamp, strict, claude);
    var r := c.(budget := s.min);
    if s.min == 0 {
      ZeroChanges(r, s, clamp, strict, claude);
    } else {
      StableStays(r, s, clamp, strict, claude);
    }
  }

  lemma BareRevalidates(c: Config, s: Support, clamp: bool, strict: bool, claude: bool)
    requires Received(c) && WellFormed(s) && SupportCapability(s) == NoThinking
    ensures var r := Validated(c, s, clamp, strict, claude);
            r.Ok? && (Validated(r.config, s, clamp, strict, claude) == r <==> !HalfTrap(c, s))
  {
    BareSettles(c, s, clamp, strict, claude);
    BareSettles(Settle(Specials(c), s, claude), s, clamp, strict, claude);
    BareAgain(c, s, claude);
  }

  lemma SettledRevalidates(c: Config, s: Support, clamp: bool, strict: bool, claude: bool)
    requires Canonical(c) && Ranged(s) && Validated(c, s, clamp, strict, claude).Ok? && !CaseTrap(c, s)
    ensures var r := Validated(c, s, clamp, strict, claude).config;
            Validated(r, s, clamp, strict, claude) == Ok(r) <==> !MediumTrap(c, s) && !HalfTrap(c, s)
  {
    var r := Validated(c, s, clamp, strict, claude).config;
    var checked := ValidatedSettles(c, s, clamp, strict, claude);
    SettleSound(checked, s, claude);
    if MediumTrap(c, s) {
      MediumIsPlain();
      UnsupportedChanges(r, s, clamp, strict, claude);
    } else {
      SettleStable(checked, s, claude);
      if HalfTrap(c, s) {
        ZeroChanges(r, s, clamp, strict, claude);
      } else {
        StableStays(r, s, clamp, strict, claude);
      }
    }
  }

  lemma CaseRevalidates(c: Config, s: Support, clamp: bool, strict: bool, claude: bool)
    requires Canonical(c) && Ranged(s) && CaseTrap(c, s)
    ensures Validated(c, s, clamp, strict, claude) == Ok(Config(ModeBudget, -1, ""))
    ensures var r := Config(ModeBudget, -1, ""); Validated(r, s, clamp, strict, claude) == Ok(r) <==> !strict
  {
    CaseTrapPasses(c, s, clamp, strict, claude);
  }

  lemma RevalidatesWhen(c: Config, s: Support, clamp: bool, strict: bool, claude: bool)
    requires Received(c) && WellFormed(s) && Validated(c, s, clamp, strict, claude).Ok?
    ensures var r := Validated(c, s, clamp, strict, claude).config;
            Validated(r, s, clamp, strict, claude) == Ok(r) <==>
            !MediumTrap(c, s) && !HalfTrap(c, s) && !NegativeTrap(c, s) && !(CaseTrap(c, s) && strict)
  {
    if SupportCapability(s) == NoThinking {
      BareRevalidates(c, s, clamp, strict, claude);
    } else if Negative(c) {
      NegativeSettles(c, s, clamp, strict, claude);
      NegativeAgain(c, s, clamp, strict, claude);
    } else if CaseTrap(c, s) {
      CaseRevalidates(c, s, clamp, strict, claude);
    } else {
      SettledRevalidates(c, s, clamp, strict, claude);
    }
  }

  // Validation is idempotent, four corners apart, and in each of them it is not.
  lemma RevalidatesExactly(c: Config, s: Support, from: string, to: string, fromSuffix: bool)
    requires Received(c) && WellFormed(s) && ValidateSupported(c, s, from, to, fromSuffix).Ok?
    ensures var r := ValidateSupported(c, s, from, to, fromSuffix).config;
            ValidateSupported(r, s, from, to, fromSuffix) == Ok(r) <==>
            && !MediumTrap(c, s) && !HalfTrap(c, s) && !NegativeTrap(c, s)
            && !(CaseTrap(c, s) && Strict(from, to, fromSuffix))
  {
    RevalidatesWhen(c, s, ClampsLevels(s, from, to), Strict(from, to, fromSuffix), to == "claude");
  }

  // A budget of -5 from a Claude client on a Gemini model with the range [0, 24576]: the budget 0 comes
  // out, and going through again that becomes "none".
  lemma NegativeAcrossFamilies()
    ensures var s := Support(0, 24576, true, true, []);
            && ValidateSupported(Config(ModeBudget, -5, ""), s, "claude", "gemini", false)
               == Ok(Config(ModeBudget, 0, ""))
            && ValidateSupported(Config(ModeBudget, 0, ""), s, "claude", "gemini", false)
               == Ok(Config(ModeNone, 0, ""))
  {
    var s := Support(0, 24576, true, true, []);
    OtherFamilies();
    NegativeSettles(Config(ModeBudget, -5, ""), s, false, false, false);
  }

  lemma OtherFamilies()
    ensures !IsSameProviderFamily("claude", "gemini") && "gemini" != "claude"
  {
    assert "gemini"[0] == 'g' && "claude"[0] == 'c' && "openai"[0] == 'o' && "codex"[1] == 'o' && "claude"[1] == 'l';
    assert "antigravity"[0] == 'a' && "openai-response"[0] == 'o' && "gemini-cli"[0] == 'g';
  }

  // ----- When validation refuses -----

  lemma RangeWhen(c: Config, s: Support, clamp: bool, strict: bool, claude: bool)
    requires Received(c) && WellFormed(s)
    ensures Validated(c, s, clamp, strict, claude) == Err(ErrBudgetOutOfRange) <==>
            strict && c.mode == ModeBudget && s.max > 0 && !(s.min <= c.budget <= s.max)
  {
    if SupportCapability(s) == NoThinking {
      BareSettles(c, s, clamp, strict, claude);
    } else if Negative(c) {
      NegativeSettles(c, s, clamp, strict, claude);
    } else if ForCapability(c, s).Request? {
      Prepared(c, s);
      CheckedLevel(Specials(ForCapability(c, s).config), s, clamp);
    }
  }

  // A budget is refused as out of range only inside a provider family, from a request body, for a
  // model with a range, and only when the request itself named a budget outside it.
  lemma RefusesRangeExactly(c: Config, s: Support, from: string, to: string, fromSuffix: bool)
    requires Received(c) && WellFormed(s)
    ensures ValidateSupported(c, s, from, to, fromSuffix) == Err(ErrBudgetOutOfRange) <==>
            && !fromSuffix && from != "" && IsSameProviderFamily(from, to)
            && c.mode == ModeBudget && s.max > 0 && !(s.min <= c.budget <= s.max)
  {
    RangeWhen(c, s, ClampsLevels(s, from, to), Strict(from, to, fromSuffix), to == "claude");
  }

  lemma {:induction false} LowerFixed(s: string)
    requires forall i :: 0 <= i < |s| ==> !('A' <= s[i] <= 'Z')
    ensures ToLower(s) == s
  {
    if s != [] {
      LowerFixed(s[1..]);
    }
  }

  predicate NoCapitals(s: string) {
    forall i :: 0 <= i < |s| ==> !('A' <= s[i] <= 'Z')
  }

  lemma StandardIsLower(level: string)
    requires level in STANDARD
    ensures ToLower(level) == level
  {
    assert NoCapitals(level);
    LowerFixed(level);
  }

  lemma StandardHasIndex(level: string)
    requires level in STANDARD
    ensures LevelIndex(level) != -1
  {
    var i :| 0 <= i < |STANDARD| && STANDARD[i] == level;
    assert EqualFold(level, STANDARD[i]);
  }

  lemma StandardHasBudget(level: string)
    requires level in STANDARD
    ensures LevelToBudget(level).Some? && LevelToBudget(level).value > 0
  {
    StandardIsLower(level);
  }

  // A configuration with one of the documented levels.
  ghost predicate Known(c: Config) {
    Canonical(c) && (c.mode == ModeLevel ==> c.level == "none" || c.level == "auto" || c.level in STANDARD)
  }

  lemma BudgetLevelKnown(budget: int)
    requires budget > 0
    ensures BudgetToLevel(budget).Some? && LevelIndex(BudgetToLevel(budget).value) != -1
    ensures BudgetToLevel(budget).value != "none" && BudgetToLevel(budget).value != "auto"
  {
    StandardHasIndex(STANDARD[BudgetPlace(budget)]);
  }

  lemma CheckClamps(c: Config, s: Support)
    requires |s.levels| > 0 ==> OffersStandard(s.levels)
    requires c.mode == ModeLevel ==> LevelIndex(c.level) != -1 || IsLevelSupported(c.level, s.levels)
    ensures CheckLevel(c, s, true).Ok?
  {
    if c.mode == ModeLevel && |s.levels| > 0 && LevelIndex(c.level) != -1 {
      ClampFindsNearest(c.level, s.levels);
    }
  }

  lemma KnownSpecial(c: Config)
    requires Known(c) && c.mode != ModeBudget
    ensures Specials(c).mode == ModeLevel ==> Specials(c).level in STANDARD
  {
  }

  lemma KnownChecks(c: Config, s: Support)
    requires Known(c) && c.mode != ModeBudget && OffersStandard(s.levels)
    ensures CheckLevel(Specials(c), s, true).Ok?
  {
    KnownSpecial(c);
    var p := Specials(c);
    if p.mode == ModeLevel {
      StandardHasIndex(p.level);
    }
    CheckClamps(p, s);
  }

  lemma LevelOnlyPasses(c: Config, s: Support, claude: bool)
    requires Known(c) && WellFormed(s) && SupportCapability(s) == LevelOnly && OffersStandard(s.levels)
    ensures Validated(c, s, true, false, claude).Ok?
  {
    if c.mode == ModeBudget {
      LevelOnlyBudget(c, s);
    } else {
      KnownChecks(c, s);
    }
  }

  lemma ClampedOnce(c: Config, s: Support, l: string)
    requires c.mode == ModeBudget && SupportCapability(s) == LevelOnly && BudgetToLevel(c.budget) == Some(l)
    ensures ForCapability(c, s) == Request(Config(ModeLevel, 0, ClampedLevel(l, s.levels)), false)
  {
  }

  lemma LevelOnlyBudget(c: Config, s: Support)
    requires c.mode == ModeBudget && c.budget > 0 && SupportCapability(s) == LevelOnly && OffersStandard(s.levels)
    ensures ForCapability(c, s).Request? && !ForCapability(c, s).derived
    ensures var p := Specials(ForCapability(c, s).config);
            p.mode == ModeLevel && IsLevelSupported(p.level, s.levels)
  {
    BudgetLevelKnown(c.budget);
    var l := BudgetToLevel(c.budget).value;
    ClampedOnce(c, s, l);
    ClampFindsNearest(l, s.levels);
    ClampedIsNoSpecial(l, s.levels);
  }

  // Neither levels nor budgets are converted for a model that takes both.
  lemma HybridPasses(c: Config, s: Support, claude: bool)
    requires Known(c) && WellFormed(s) && SupportCapability(s) == Hybrid && OffersStandard(s.levels)
    ensures Validated(c, s, true, false, claude).Ok?
  {
    if c.mode != ModeBudget {
      KnownChecks(c, s);
    }
  }

  lemma KnownLevelConverts(c: Config, s: Support)
    requires Known(c) && SupportCapability(s) == BudgetOnly
    ensures ForCapability(c, s).Request?
  {
    if c.mode == ModeLevel && c.level in STANDARD {
      StandardHasBudget(c.level);
    }
    LowerFixed("none");
  }

  lemma BudgetOnlyPasses(c: Config, s: Support, clamp: bool, claude: bool)
    requires Known(c) && WellFormed(s) && SupportCapability(s) == BudgetOnly
    ensures Validated(c, s, clamp, false, claude).Ok?
  {
    KnownLevelConverts(c, s);
  }

  lemma SupportedIsOffered(level: string, levels: seq<string>)
    requires level in STANDARD && IsLevelSupported(level, levels)
    ensures OffersStandard(levels)
  {
    var k :| 0 <= k < |STANDARD| && STANDARD[k] == level;
    var i :| 0 <= i < |levels| && EqualFold(level, Trim(levels[i]));
    FoldHasPlace(levels[i], k);
  }

  lemma FoldHasPlace(level: string, k: nat)
    requires k < |STANDARD| && EqualFold(STANDARD[k], Trim(level))
    ensures Place(level) != -1
  {
  }

  lemma NoStandardRefuses(level: string, s: Support, clamp: bool)
    requires |s.levels| > 0 && !OffersStandard(s.levels) && LevelIndex(level) != -1
             && !IsLevelSupported(level, s.levels)
    ensures CheckLevel(Config(ModeLevel, 0, level), s, clamp).Err?
  {
    var best := Nearest(LevelIndex(level), s.levels);
    NearestIsNearest(LevelIndex(level), s.levels);
    if best in Places(s.levels) {
      NoPlaces(s.levels, best);
    }
  }

  lemma StandardRefused(level: string, s: Support, clamp: bool, strict: bool, claude: bool)
    requires WellFormed(s) && |s.levels| > 0 && !OffersStandard(s.levels)
    requires level in STANDARD && level != "none" && level != "auto"
    ensures Validated(Config(ModeLevel, 0, level), s, clamp, strict, claude).Err?
  {
    StandardHasIndex(level);
    if IsLevelSupported(level, s.levels) {
      SupportedIsOffered(level, s.levels);
    }
    LevelPrepared(Config(ModeLevel, 0, level), s);
    NoStandardRefuses(level, s, clamp);
  }

  lemma AcrossFamilies(c: Config, s: Support, clamp: bool, claude: bool)
    requires Known(c) && WellFormed(s) && (|s.levels| > 0 ==> OffersStandard(s.levels))
    requires clamp <==> SupportCapability(s) == LevelOnly || SupportCapability(s) == Hybrid
    ensures Validated(c, s, clamp, false, claude).Ok?
  {
    match SupportCapability(s)
    case NoThinking => BareSettles(c, s, clamp, false, claude);
    case LevelOnly => LevelOnlyPasses(c, s, claude);
    case Hybrid => HybridPasses(c, s, claude);
    case BudgetOnly => BudgetOnlyPasses(c, s, clamp, claude);
  }

  // Across provider families nothing documented is ever refused, exactly as long as a model that
  // has levels has a standard one.
  lemma CrossFamilyNeverFails(s: Support, from: string, to: string, fromSuffix: bool)
    requires WellFormed(s) && !IsSameProviderFamily(from, to)
    ensures (forall c :: Known(c) ==> ValidateSupported(c, s, from, to, fromSuffix).Ok?) <==>
            (|s.levels| > 0 ==> OffersStandard(s.levels))
  {
    var clamp, claude := ClampsLevels(s, from, to), to == "claude";
    if |s.levels| > 0 ==> OffersStandard(s.levels) {
      forall c | Known(c) ensures ValidateSupported(c, s, from, to, fromSuffix).Ok? {
        AcrossFamilies(c, s, clamp, claude);
      }
    } else {
      MediumIsPlain();
      StandardRefused(MEDIUM, s, clamp, false, claude);
      assert Known(Config(ModeLevel, 0, MEDIUM));
    }
  }
}
