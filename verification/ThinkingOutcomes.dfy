/** What a thinking configuration comes out as, in the words of the documentation: which level a budget
    means, which budget a level means, and what becomes of "none" and "auto". */
module ThinkingOutcomes {
  import opened Text
  import opened Thinking
  import opened ThinkingProofs

  // ----- The documented meanings -----

  // The level a positive budget means.
  ghost predicate Means(budget: int, level: string) {
    || (1 <= budget <= 512 && level == "minimal")
    || (513 <= budget <= 1024 && level == "low")
    || (1025 <= budget <= 8192 && level == "medium")
    || (8193 <= budget <= 24576 && level == "high")
    || (24577 <= budget && level == "xhigh")
  }

  // The budget a level means, in whatever case it is written.
  ghost predicate Costs(level: string, budget: int) {
    var l := ToLower(level);
    || (l == "minimal" && budget == 512)
    || (l == "low" && budget == 1024)
    || (l == "medium" && budget == 8192)
    || (l == "high" && budget == 24576)
    || (l == "xhigh" && budget == 32768)
    || (l == "max" && budget == 128000)
  }

  ghost predicate Offered(level: string, levels: seq<string>) {
    exists i :: 0 <= i < |levels| && ToLower(Trim(levels[i])) == ToLower(level)
  }

  ghost predicate OneFamily(from: string, to: string) {
    || from == to
    || (from in ["gemini", "gemini-cli", "antigravity"] && to in ["gemini", "gemini-cli", "antigravity"])
    || (from in ["openai", "openai-response", "codex"] && to in ["openai", "openai-response", "codex"])
  }

  function Within(n: int, s: Support): int {
    if n < s.min then s.min else if n > s.max then s.max else n
  }

  lemma OfferedIsSupported(level: string, levels: seq<string>)
    ensures Offered(level, levels) <==> IsLevelSupported(level, levels)
  {
    if i :| 0 <= i < |levels| && EqualFold(level, Trim(levels[i])) {
      assert ToLower(Trim(levels[i])) == ToLower(level);
    }
  }

  lemma FamiliesAgree(from: string, to: string)
    ensures OneFamily(from, to) <==> IsSameProviderFamily(from, to)
  {
  }

  lemma MeansPlace(budget: int, level: string)
    requires Means(budget, level)
    ensures BudgetToLevel(budget) == Some(level) && level == STANDARD[BudgetPlace(budget)]
  {
  }

  // Where a level stands in minimal, low, medium, high, xhigh, max.
  ghost predicate StandsAt(level: string, i: int) {
    0 <= i < 6 && ToLower(level) == ["minimal", "low", "medium", "high", "xhigh", "max"][i]
  }

  // near is a standard level, and no offered one is nearer to level, the lower one of two preferred.
  ghost predicate NearestTo(level: string, near: string, levels: seq<string>) {
    exists pos, best ::
      && StandsAt(level, pos) && StandsAt(near, best)
      && forall i, k :: 0 <= i < |levels| && StandsAt(Trim(levels[i]), k) ==> Beats(pos, best, k)
  }

  lemma StandardStands(i: nat)
    requires i < 6
    ensures ["minimal", "low", "medium", "high", "xhigh", "max"][i] == STANDARD[i]
    ensures StandsAt(STANDARD[i], i) && ToLower(STANDARD[i]) == STANDARD[i]
  {
    StandardIsLower(STANDARD[i]);
  }

  lemma StandardDistinct(i: nat, j: nat)
    requires i < 6 && j < 6 && STANDARD[i] == STANDARD[j]
    ensures i == j
  {
    assert STANDARD[0][2] == 'n' && STANDARD[1][0] == 'l' && STANDARD[2][2] == 'd' && STANDARD[3][0] == 'h'
           && STANDARD[4][0] == 'x' && STANDARD[5][2] == 'x' && STANDARD[0][0] == 'm' && STANDARD[2][0] == 'm'
           && STANDARD[5][0] == 'm';
  }

  lemma StandsIsIndex(level: string, k: int)
    ensures StandsAt(level, k) <==> k != -1 && LevelIndex(level) == k
  {
    var r := LevelIndex(level);
    if StandsAt(level, k) {
      StandardStands(k);
      if r != -1 {
        StandardStands(r);
        StandardDistinct(k, r);
      }
    }
    if k != -1 && r == k {
      StandardStands(k);
    }
  }

  lemma ClampIsNearest(level: string, levels: seq<string>)
    requires LevelIndex(level) != -1 && OffersStandard(levels)
    ensures NearestTo(level, ClampedLevel(level, levels), levels)
  {
    var pos := LevelIndex(level);
    var best := if IsLevelSupported(level, levels) then pos else Nearest(pos, levels);
    ClampFindsNearest(level, levels);
    StandsIsIndex(level, pos);
    if IsLevelSupported(level, levels) {
      assert StandsAt(ClampedLevel(level, levels), best);
    } else {
      StandardStands(best);
      forall i, k | 0 <= i < |levels| && StandsAt(Trim(levels[i]), k) ensures Beats(pos, best, k) {
        StandsIsIndex(Trim(levels[i]), k);
        PlaceAt(levels, i);
      }
    }
  }

  // ----- Models without thinking -----

  // For a model that is not known, or has no thinking support, only no thinking is let through, as it is.
  lemma WithoutThinking(c: Config, model: Option<Model>, from: string, to: string, fromSuffix: bool)
    requires model.None? || model.value.thinking.None?
    ensures Validate(c, model, from, to, fromSuffix)
            == if c.mode == ModeNone then Ok(c) else Err(ErrThinkingNotSupported)
  {
  }

  // ----- Budgets on a model that takes levels only -----

  // The level a budget means is what comes out, if the model offers it, whoever asks.
  lemma BudgetBecomesLevel(budget: int, level: string, s: Support, id: string, l: string, from: string, to: string,
                           fromSuffix: bool)
    requires s.min == 0 && s.max == 0 && |s.levels| > 0
    requires Means(budget, level) && Offered(level, s.levels)
    ensures Validate(Config(ModeBudget, budget, l), Some(Model(id, Some(s))), from, to, fromSuffix)
            == Ok(Config(ModeLevel, 0, level))
  {
    OfferedIsSupported(level, s.levels);
    MeansPlace(budget, level);
    MeantIsPlain(budget, level);
    ClampComesOut(budget, level, s, l, ClampsLevels(s, Fold(from), Fold(to)),
                  Strict(Fold(from), Fold(to), fromSuffix), Fold(to) == "claude");
    ValidateIs(Config(ModeBudget, budget, l), s, id, from, to, fromSuffix);
  }

  lemma MeantIsPlain(budget: int, level: string)
    requires Means(budget, level)
    ensures level != "none" && level != "auto" && level in STANDARD
  {
    StandardIsPlain(BudgetPlace(budget));
    MeansPlace(budget, level);
  }

  // Whatever the model offers: the level that comes out is offered, and none nearer to the one meant is.
  lemma BudgetBecomesNearest(budget: int, level: string, s: Support, id: string, l: string, from: string, to: string,
                             fromSuffix: bool)
    requires s.min == 0 && s.max == 0 && OffersStandard(s.levels) && Means(budget, level)
    ensures var r := Validate(Config(ModeBudget, budget, l), Some(Model(id, Some(s))), from, to, fromSuffix);
            && r.Ok? && r.config.mode == ModeLevel && r.config.budget == 0
            && Offered(r.config.level, s.levels) && NearestTo(level, r.config.level, s.levels)
  {
    MeansPlace(budget, level);
    MeantIsPlain(budget, level);
    NearestOffered(level, s.levels);
    ClampComesOut(budget, level, s, l, ClampsLevels(s, Fold(from), Fold(to)),
                  Strict(Fold(from), Fold(to), fromSuffix), Fold(to) == "claude");
    ValidateIs(Config(ModeBudget, budget, l), s, id, from, to, fromSuffix);
  }

  lemma ValidateIs(c: Config, s: Support, id: string, from: string, to: string, fromSuffix: bool)
    ensures Validate(c, Some(Model(id, Some(s))), from, to, fromSuffix)
            == Validated(c, s, ClampsLevels(s, Fold(from), Fold(to)), Strict(Fold(from), Fold(to), fromSuffix),
                         Fold(to) == "claude")
  {
  }

  lemma NearestOffered(level: string, levels: seq<string>)
    requires level in STANDARD && level != "none" && level != "auto" && OffersStandard(levels)
    ensures var near := ClampedLevel(level, levels);
            && near != "none" && near != "auto" && IsLevelSupported(near, levels) && Offered(near, levels)
            && NearestTo(level, near, levels)
  {
    StandardHasIndex(level);
    ClampFindsNearest(level, levels);
    ClampedIsNoSpecial(level, levels);
    OfferedIsSupported(ClampedLevel(level, levels), levels);
    ClampIsNearest(level, levels);
  }

  lemma ClampComesOut(budget: int, level: string, s: Support, l: string, clamp: bool, strict: bool, claude: bool)
    requires SupportCapability(s) == LevelOnly && BudgetToLevel(budget) == Some(level)
    requires var clamped := ClampedLevel(level, s.levels);
             clamped != "none" && clamped != "auto" && IsLevelSupported(clamped, s.levels)
    ensures Validated(Config(ModeBudget, budget, l), s, clamp, strict, claude)
            == Ok(Config(ModeLevel, 0, ClampedLevel(level, s.levels)))
  {
    var clamped := ClampedLevel(level, s.levels);
    BudgetConverts(budget, level, s, l);
    LevelAsItIs(clamped, 0, s);
    CheckedAs(clamped, 0, s, clamp);
    LevelSettles(clamped, 0, s, claude);
  }

  lemma BudgetConverts(budget: int, level: string, s: Support, l: string)
    requires SupportCapability(s) == LevelOnly && BudgetToLevel(budget) == Some(level)
    ensures ForCapability(Config(ModeBudget, budget, l), s)
            == Request(Config(ModeLevel, 0, ClampedLevel(level, s.levels)), false)
  {
  }

  lemma MeansInOrder(b1: int, l1: string, b2: int, l2: string, i: int, j: int)
    requires b1 <= b2 && Means(b1, l1) && Means(b2, l2) && StandsAt(l1, i) && StandsAt(l2, j)
    ensures i <= j
  {
    MeansPlace(b1, l1);
    MeansPlace(b2, l2);
    StandardStands(BudgetPlace(b1));
    StandardStands(BudgetPlace(b2));
    StandsIsIndex(l1, i);
    StandsIsIndex(l1, BudgetPlace(b1));
    StandsIsIndex(l2, j);
    StandsIsIndex(l2, BudgetPlace(b2));
  }

  lemma NearestInOrder(p1: int, p2: int, n1: int, n2: int)
    requires p1 <= p2 && Beats(p1, n1, n2) && Beats(p2, n2, n1)
    ensures n1 <= n2
  {
  }

  lemma OfferedStands(near: string, best: int, levels: seq<string>) returns (i: nat)
    requires Offered(near, levels) && StandsAt(near, best)
    ensures i < |levels| && StandsAt(Trim(levels[i]), best)
  {
    i :| 0 <= i < |levels| && ToLower(Trim(levels[i])) == ToLower(near);
  }

  lemma NearestLevelsInOrder(l1: string, n1: string, l2: string, n2: string, levels: seq<string>, i: int, j: int)
    requires NearestTo(l1, n1, levels) && NearestTo(l2, n2, levels) && Offered(n1, levels) && Offered(n2, levels)
    requires forall p, q :: StandsAt(l1, p) && StandsAt(l2, q) ==> p <= q
    requires StandsAt(n1, i) && StandsAt(n2, j)
    ensures i <= j
  {
    var p1, b1 :| StandsAt(l1, p1) && StandsAt(n1, b1)
                  && forall i, k :: 0 <= i < |levels| && StandsAt(Trim(levels[i]), k) ==> Beats(p1, b1, k);
    var p2, b2 :| StandsAt(l2, p2) && StandsAt(n2, b2)
                  && forall i, k :: 0 <= i < |levels| && StandsAt(Trim(levels[i]), k) ==> Beats(p2, b2, k);
    var at1 := OfferedStands(n1, b1, levels);
    var at2 := OfferedStands(n2, b2, levels);
    NearestInOrder(p1, p2, b1, b2);
    StandsIsIndex(n1, i);
    StandsIsIndex(n1, b1);
    StandsIsIndex(n2, j);
    StandsIsIndex(n2, b2);
  }

  // A larger budget never gives a lower level.
  lemma BudgetsKeepOrder(b1: int, b2: int, s: Support, id: string, from: string, to: string, fromSuffix: bool,
                         i: int, j: int)
    requires s.min == 0 && s.max == 0 && OffersStandard(s.levels) && 0 < b1 <= b2
    requires var r := Validate(Config(ModeBudget, b1, ""), Some(Model(id, Some(s))), from, to, fromSuffix);
             r.Ok? && StandsAt(r.config.level, i)
    requires var r := Validate(Config(ModeBudget, b2, ""), Some(Model(id, Some(s))), from, to, fromSuffix);
             r.Ok? && StandsAt(r.config.level, j)
    ensures i <= j
  {
    var l1, l2 := STANDARD[BudgetPlace(b1)], STANDARD[BudgetPlace(b2)];
    PlaceMeans(b1);
    PlaceMeans(b2);
    BudgetBecomesNearest(b1, l1, s, id, "", from, to, fromSuffix);
    BudgetBecomesNearest(b2, l2, s, id, "", from, to, fromSuffix);
    forall p, q | StandsAt(l1, p) && StandsAt(l2, q) ensures p <= q {
      MeansInOrder(b1, l1, b2, l2, p, q);
    }
    NearestLevelsInOrder(
      l1, Validate(Config(ModeBudget, b1, ""), Some(Model(id, Some(s))), from, to, fromSuffix).config.level,
      l2, Validate(Config(ModeBudget, b2, ""), Some(Model(id, Some(s))), from, to, fromSuffix).config.level,
      s.levels, i, j);
  }

  lemma PlaceMeans(budget: int)
    requires budget > 0
    ensures Means(budget, STANDARD[BudgetPlace(budget)])
  {
  }

  // ----- Levels and budgets on a model with a range -----

  // A level on a model that takes budgets only becomes the budget it means, moved into the range.
  lemma LevelBecomesBudget(level: string, budget: int, n: int, s: Support, id: string, from: string, to: string,
                           fromSuffix: bool)
    requires 0 <= s.min <= s.max && s.max > 0 && s.levels == [] && Costs(level, budget)
    ensures Validate(Config(ModeLevel, n, level), Some(Model(id, Some(s))), from, to, fromSuffix)
            == Ok(Config(ModeBudget, Within(budget, s), ""))
  {
    CostsIsBudget(level, budget);
    ValidateIs(Config(ModeLevel, n, level), s, id, from, to, fromSuffix);
    DerivedBudget(level, budget, n, s, ClampsLevels(s, Fold(from), Fold(to)),
                  Strict(Fold(from), Fold(to), fromSuffix), Fold(to) == "claude");
  }

  lemma CostsIsBudget(level: string, budget: int)
    requires Costs(level, budget)
    ensures LevelToBudget(level) == Some(budget) && budget > 0 && level != "auto"
  {
    LowerFixed("auto");
  }

  lemma DerivedBudget(level: string, budget: int, n: int, s: Support, clamp: bool, strict: bool, claude: bool)
    requires 0 <= s.min <= s.max && s.max > 0 && s.levels == []
    requires LevelToBudget(level) == Some(budget) && budget > 0 && level != "auto"
    ensures Validated(Config(ModeLevel, n, level), s, clamp, strict, claude)
            == Ok(Config(ModeBudget, Within(budget, s), ""))
  {
  }

  ghost predicate SameFamilyBody(from: string, to: string, fromSuffix: bool) {
    var f, t := ToLower(Trim(from)), ToLower(Trim(to));
    !fromSuffix && f != "" && OneFamily(f, t)
  }

  lemma StrictIsSameFamily(from: string, to: string, fromSuffix: bool)
    ensures Strict(Fold(from), Fold(to), fromSuffix) <==> SameFamilyBody(from, to, fromSuffix)
  {
    FamiliesAgree(Fold(from), Fold(to));
  }

  // A budget on a model with a range stays if it is in the range; otherwise a request body within a family
  // is refused and any other is moved to the nearer end.
  lemma BudgetOutcome(budget: int, l: string, s: Support, id: string, from: string, to: string, fromSuffix: bool)
    requires 0 <= s.min <= s.max && s.max > 0 && (budget > 0 || budget < -1)
    ensures Validate(Config(ModeBudget, budget, l), Some(Model(id, Some(s))), from, to, fromSuffix) ==
            if !(s.min <= budget <= s.max) && SameFamilyBody(from, to, fromSuffix) then Err(ErrBudgetOutOfRange)
            else Ok(Config(ModeBudget, Within(budget, s), l))
  {
    StrictIsSameFamily(from, to, fromSuffix);
    ValidateIs(Config(ModeBudget, budget, l), s, id, from, to, fromSuffix);
    NamedBudget(budget, l, s, ClampsLevels(s, Fold(from), Fold(to)), Strict(Fold(from), Fold(to), fromSuffix),
                Fold(to) == "claude");
  }

  lemma NamedBudget(budget: int, l: string, s: Support, clamp: bool, strict: bool, claude: bool)
    requires 0 <= s.min <= s.max && s.max > 0 && (budget > 0 || budget < -1)
    ensures Validated(Config(ModeBudget, budget, l), s, clamp, strict, claude) ==
            if !(s.min <= budget <= s.max) && strict then Err(ErrBudgetOutOfRange)
            else Ok(Config(ModeBudget, Within(budget, s), l))
  {
  }

  // ----- Levels on a model that has levels -----

  // A level the model offers stays as it is; another one is refused within a family, and becomes the
  // nearest offered one across families.
  lemma LevelOutcome(level: string, n: int, s: Support, id: string, from: string, to: string, fromSuffix: bool)
    requires 0 <= s.min <= s.max && s.levels != [] && level != "none" && level != "auto"
    ensures var r := Validate(Config(ModeLevel, n, level), Some(Model(id, Some(s))), from, to, fromSuffix);
            if Offered(level, s.levels) then r == Ok(Config(ModeLevel, n, level))
            else if OneFamily(ToLower(Trim(from)), ToLower(Trim(to))) then r == Err(ErrLevelNotSupported)
            else level in STANDARD && OffersStandard(s.levels) ==>
              && r.Ok? && r.config.mode == ModeLevel && r.config.budget == n
              && Offered(r.config.level, s.levels) && NearestTo(level, r.config.level, s.levels)
  {
    var clamp := ClampsLevels(s, Fold(from), Fold(to));
    FamiliesAgree(Fold(from), Fold(to));
    OfferedIsSupported(level, s.levels);
    ValidateIs(Config(ModeLevel, n, level), s, id, from, to, fromSuffix);
    NamedLevel(level, n, s, clamp, Strict(Fold(from), Fold(to), fromSuffix), Fold(to) == "claude");
    if level in STANDARD && OffersStandard(s.levels) {
      NearestOffered(level, s.levels);
    }
  }

  lemma NamedLevel(level: string, n: int, s: Support, clamp: bool, strict: bool, claude: bool)
    requires 0 <= s.min <= s.max && s.levels != [] && level != "none" && level != "auto"
    ensures Validated(Config(ModeLevel, n, level), s, clamp, strict, claude) ==
            if IsLevelSupported(level, s.levels) then Ok(Config(ModeLevel, n, level))
            else
              var l := if clamp then ClampedLevel(level, s.levels) else level;
              if IsLevelSupported(l, s.levels) then Ok(Config(ModeLevel, n, l)) else Err(ErrLevelNotSupported)
  {
    LevelAsItIs(level, n, s);
    CheckedAs(level, n, s, clamp);
    var l := if !IsLevelSupported(level, s.levels) && clamp then ClampedLevel(level, s.levels) else level;
    LevelSettles(l, n, s, claude);
  }

  // A level is not converted for a model that has levels, ...
  lemma LevelAsItIs(level: string, n: int, s: Support)
    requires s.levels != [] && level != "none" && level != "auto"
    ensures ForCapability(Config(ModeLevel, n, level), s) == Request(Config(ModeLevel, n, level), false)
    ensures Specials(Config(ModeLevel, n, level)) == Config(ModeLevel, n, level)
  {
  }

  // ... it is checked, ...
  lemma CheckedAs(level: string, n: int, s: Support, clamp: bool)
    requires s.levels != []
    ensures CheckLevel(Config(ModeLevel, n, level), s, clamp) ==
            if IsLevelSupported(level, s.levels) then Ok(Config(ModeLevel, n, level))
            else
              var l := if clamp then ClampedLevel(level, s.levels) else level;
              if IsLevelSupported(l, s.levels) then Ok(Config(ModeLevel, n, l)) else Err(ErrLevelNotSupported)
  {
  }

  // ... and then left alone.
  lemma LevelSettles(level: string, n: int, s: Support, claude: bool)
    ensures Settle(Config(ModeLevel, n, level), s, claude) == Config(ModeLevel, n, level)
    ensures !OutOfRange(Config(ModeLevel, n, level), s)
  {
  }

  // ----- None and automatic -----

  ghost predicate AsksNone(c: Config) {
    || c == Config(ModeNone, 0, "") || (c.mode == ModeLevel && c.level == "none")
    || (c.mode == ModeBudget && c.budget == 0 && c.level == "")
  }

  // No thinking: the budget zero, or where that is not allowed the least one, with the first level if the
  // model has levels; for claude always plain zero.
  lemma NoneOutcome(c: Config, s: Support, id: string, from: string, to: string, fromSuffix: bool)
    requires 0 <= s.min <= s.max && AsksNone(c)
    ensures Validate(c, Some(Model(id, Some(s))), from, to, fromSuffix) ==
            if ToLower(Trim(to)) == "claude" || s.zeroAllowed || s.min == 0 then Ok(Config(ModeNone, 0, ""))
            else Ok(Config(ModeNone, s.min, if s.levels == [] then "" else s.levels[0]))
  {
    ValidateIs(c, s, id, from, to, fromSuffix);
    NoneComesOut(c, s, ClampsLevels(s, Fold(from), Fold(to)), Strict(Fold(from), Fold(to), fromSuffix),
                 Fold(to) == "claude");
  }

  lemma NoneIsNoLevel(levels: seq<string>)
    ensures LevelIndex("none") == -1 && ClampedLevel("none", levels) == "none" && LevelToBudget("none") == Some(0)
  {
    LowerFixed("none");
    if LevelIndex("none") != -1 {
      StandardIsLower(STANDARD[LevelIndex("none")]);
      StandardIsPlain(LevelIndex("none"));
    }
  }

  lemma NoneComesOut(c: Config, s: Support, clamp: bool, strict: bool, claude: bool)
    requires 0 <= s.min <= s.max && AsksNone(c)
    ensures Validated(c, s, clamp, strict, claude) ==
            if claude || s.zeroAllowed || s.min == 0 then Ok(Config(ModeNone, 0, ""))
            else Ok(Config(ModeNone, s.min, if s.levels == [] then "" else s.levels[0]))
  {
    NoneIsNoLevel(s.levels);
    NonePrepared(c, s);
    NoneSettles(s, claude);
  }

  lemma NonePrepared(c: Config, s: Support)
    requires AsksNone(c) && ClampedLevel("none", s.levels) == "none" && LevelToBudget("none") == Some(0)
    ensures ForCapability(c, s).Request? && Specials(ForCapability(c, s).config) == Config(ModeNone, 0, "")
  {
    match c.mode
    case ModeNone => ModeNonePrepared(s);
    case ModeLevel => LevelNonePrepared(c, s);
    case ModeBudget => BudgetNonePrepared(s);
    case ModeAuto =>
  }

  lemma ModeNonePrepared(s: Support)
    ensures ForCapability(Config(ModeNone, 0, ""), s).Request?
    ensures Specials(ForCapability(Config(ModeNone, 0, ""), s).config) == Config(ModeNone, 0, "")
  {
  }

  lemma LevelNonePrepared(c: Config, s: Support)
    requires c.mode == ModeLevel && c.level == "none" && LevelToBudget("none") == Some(0)
    ensures ForCapability(c, s).Request? && Specials(ForCapability(c, s).config) == Config(ModeNone, 0, "")
  {
  }

  lemma BudgetNonePrepared(s: Support)
    requires ClampedLevel("none", s.levels) == "none"
    ensures ForCapability(Config(ModeBudget, 0, ""), s).Request?
    ensures Specials(ForCapability(Config(ModeBudget, 0, ""), s).config) == Config(ModeNone, 0, "")
  {
    if SupportCapability(s) == LevelOnly {
      BudgetConverts(0, "none", s, "");
      NoneIsSpecial();
    } else {
      BudgetUnconverted(s);
    }
  }

  lemma NoneIsSpecial()
    ensures Specials(Config(ModeLevel, 0, "none")) == Config(ModeNone, 0, "")
  {
  }

  lemma BudgetUnconverted(s: Support)
    requires SupportCapability(s) != LevelOnly
    ensures ForCapability(Config(ModeBudget, 0, ""), s) == Request(Config(ModeBudget, 0, ""), false)
    ensures Specials(Config(ModeBudget, 0, "")) == Config(ModeNone, 0, "")
  {
  }

  lemma NoneSettles(s: Support, claude: bool)
    requires 0 <= s.min <= s.max
    ensures Settle(Config(ModeNone, 0, ""), s, claude) ==
            if claude || s.zeroAllowed || s.min == 0 then Config(ModeNone, 0, "")
            else Config(ModeNone, s.min, if s.levels == [] then "" else s.levels[0])
  {
  }

  lemma AutoPrepared(c: Config, s: Support)
    requires c == Config(ModeAuto, -1, "") || (c.mode == ModeLevel && c.level == "auto")
    ensures ForCapability(c, s).Request? && Specials(ForCapability(c, s).config) == Config(ModeAuto, -1, "")
  {
  }

  lemma AutoSettles(s: Support, claude: bool)
    requires 0 <= s.min <= s.max && (s.max > 0 || s.levels != [])
    ensures var r := Settle(Config(ModeAuto, -1, ""), s, claude);
            if s.dynamicAllowed then r == Config(ModeAuto, -1, "")
            else if s.max == 0 then r == Config(ModeLevel, 0, "medium")
            else
              && 2 * r.budget <= s.min + s.max <= 2 * r.budget + 1
              && r == Config(if r.budget == 0 && s.zeroAllowed then ModeNone else ModeBudget, r.budget, "")
  {
  }

  // Automatic thinking stays where it is allowed. Otherwise it becomes the middle of the range, none if
  // that is zero and zero is allowed, or medium on a model with levels only.
  lemma AutoOutcome(c: Config, s: Support, id: string, from: string, to: string, fromSuffix: bool)
    requires 0 <= s.min <= s.max && (s.max > 0 || s.levels != [])
    requires c == Config(ModeAuto, -1, "") || (c.mode == ModeLevel && c.level == "auto")
    ensures var r := Validate(c, Some(Model(id, Some(s))), from, to, fromSuffix);
            if s.dynamicAllowed then r == Ok(Config(ModeAuto, -1, ""))
            else if s.max == 0 then r == Ok(Config(ModeLevel, 0, "medium"))
            else r.Ok? && var x := r.config.budget;
              && 2 * x <= s.min + s.max <= 2 * x + 1
              && r.config == Config(if x == 0 && s.zeroAllowed then ModeNone else ModeBudget, x, "")
  {
    ValidateIs(c, s, id, from, to, fromSuffix);
    AutoComesOut(c, s, ClampsLevels(s, Fold(from), Fold(to)), Strict(Fold(from), Fold(to), fromSuffix),
                 Fold(to) == "claude");
  }

  lemma AutoComesOut(c: Config, s: Support, clamp: bool, strict: bool, claude: bool)
    requires 0 <= s.min <= s.max && (s.max > 0 || s.levels != [])
    requires c == Config(ModeAuto, -1, "") || (c.mode == ModeLevel && c.level == "auto")
    ensures var r := Validated(c, s, clamp, strict, claude);
            if s.dynamicAllowed then r == Ok(Config(ModeAuto, -1, ""))
            else if s.max == 0 then r == Ok(Config(ModeLevel, 0, "medium"))
            else r.Ok? && var x := r.config.budget;
              && 2 * x <= s.min + s.max <= 2 * x + 1
              && r.config == Config(if x == 0 && s.zeroAllowed then ModeNone else ModeBudget, x, "")
  {
    AutoPrepared(c, s);
    AutoSettles(s, claude);
  }
}
