/** What the registration steps promise about each other, and what a positive model count means. */
module RegistryProofs {
  import opened Text
  import opened RegistryModel
  import opened ModelRegistry

  function Unmarked(slot: Slot): Slot {
    match slot
    case None => None
    case Some(r) => Some(r.(quotaExceeded := map[], suspended := map[]))
  }

  // The index is a function of the client tables: no order of operations can make it drift.
  lemma TablesDetermineCounts(a: Models, b: Models, lists: ClientLists, providers: map<string, string>)
    requires IndexCounts(a, lists, providers) && IndexCounts(b, lists, providers)
    ensures a.Keys == b.Keys
    ensures forall m :: m in a ==> a[m].count == b[m].count && a[m].providers == b[m].providers
  {
    forall m ensures m in a <==> m in b
      ensures m in a ==> a[m].count == b[m].count && a[m].providers == b[m].providers
    {
      assert SlotCounts(Lookup(a, m), Total(lists, m), Shares(lists, providers, m));
      assert SlotCounts(Lookup(b, m), Total(lists, m), Shares(lists, providers, m));
    }
  }

  // The simple form of re-registration: drop the client, then add it as a new one.
  ghost predicate DropThenAdd(was: Models, lists: ClientLists, providers: map<string, string>,
                              c: string, ids: seq<string>, p: string, infos: map<string, ModelInfo>,
                              dropped: Models, again: Models)
  {
    && (forall m :: Lookup(dropped, m) == Step(was, lists, providers, c, [], "", map[], m))
    && (forall m :: Lookup(again, m) ==
                    Step(dropped, PutList(lists, c, []), PutProvider(providers, c, ""), c, ids, p, infos, m))
  }

  lemma ReboundTwice(slot: Slot, c: string, known: bool, oldP: string, o: nat, p: string, n: nat, info: ModelInfo)
    requires Holds(slot, oldP, o)
    requires slot.Some? && slot.value.count == o ==> Minus(slot.value.providers, oldP, o) == map[]
    ensures var dropped := Rebound(slot, c, o > 0, oldP, o, "", 0, info);
            var again := Rebound(dropped, c, false, "", 0, p, n, info);
            Unmarked(again) == Unmarked(Rebound(slot, c, known, oldP, o, p, n, info))
  {
    if slot.Some? {
      var dropped := Rebound(slot, c, o > 0, oldP, o, "", 0, info);
      if dropped.None? {
        assert Release(slot.value, oldP, o).infoByProvider == map[];
      }
    }
  }

  // The sole client of a model is its sole provider too.
  lemma SoleOwner(lists: ClientLists, providers: map<string, string>, c: string, m: string)
    requires TablesOk(lists, providers) && Total(lists, m) == Times(ListOf(lists, c), m)
    ensures Minus(Shares(lists, providers, m), ProviderOf(providers, c), Times(ListOf(lists, c), m)) == map[]
  {
    TotalPut(lists, c, [], m);
    SharesPut(lists, providers, c, [], "", m);
    NothingShared(PutList(lists, c, []), PutProvider(providers, c, ""), m);
  }

  lemma ReconcileOne(was: Models, lists: ClientLists, providers: map<string, string>,
                     c: string, ids: seq<string>, p: string, infos: map<string, ModelInfo>, m: string)
    requires TablesOk(lists, providers) && SlotCounts(Lookup(was, m), Total(lists, m), Shares(lists, providers, m))
    ensures var o, n := Times(ListOf(lists, c), m), Times(ids, m);
            var info := InfoOf(infos, m);
            var dropped := Rebound(Lookup(was, m), c, o > 0, ProviderOf(providers, c), o, "", 0, info);
            Unmarked(Step(was, lists, providers, c, ids, p, infos, m))
              == Unmarked(Rebound(dropped, c, false, "", 0, p, n, info))
  {
    var o, n := Times(ListOf(lists, c), m), Times(ids, m);
    var slot := Lookup(was, m);
    TablesHold(slot, lists, providers, c, m);
    if slot.Some? && slot.value.count == o {
      SoleOwner(lists, providers, c, m);
    }
    ReboundTwice(slot, c, c in lists && o + n > 0, ProviderOf(providers, c), o, p, n, InfoOf(infos, m));
  }

  lemma StepWhenUnknown(models: Models, lists: ClientLists, providers: map<string, string>, c: string,
                        ids: seq<string>, p: string, infos: map<string, ModelInfo>, m: string)
    requires c !in lists && c !in providers
    ensures Step(models, lists, providers, c, ids, p, infos, m)
            == Rebound(Lookup(models, m), c, false, "", 0, p, Times(ids, m), InfoOf(infos, m))
  {
    assert ListOf(lists, c) == [] && ProviderOf(providers, c) == "";
  }

  // Dropping a client: the info of a model it may add later does not matter yet.
  lemma DropStep(was: Models, lists: ClientLists, providers: map<string, string>, c: string, info: ModelInfo, m: string)
    requires SlotCounts(Lookup(was, m), Total(lists, m), Shares(lists, providers, m))
    ensures var o := Times(ListOf(lists, c), m);
            Step(was, lists, providers, c, [], "", map[], m)
            == Rebound(Lookup(was, m), c, o > 0, ProviderOf(providers, c), o, "", 0, info)
  {
    TablesHold(Lookup(was, m), lists, providers, c, m);
    assert Times([], m) == 0;
  }

  lemma PutAfterDrop(lists: ClientLists, c: string, ids: seq<string>)
    ensures PutList(PutList(lists, c, []), c, ids) == PutList(lists, c, ids)
  {
    if ids == [] {
      GoneAgain(lists, c);
    }
  }

  lemma PutProviderAfterDrop(providers: map<string, string>, c: string, p: string)
    ensures PutProvider(PutProvider(providers, c, ""), c, p) == PutProvider(providers, c, p)
  {
    if p == "" {
      GoneAgain(providers, c);
    }
  }

  // Reconciling in place agrees with the simple form in everything but marks: same client tables,
  // same models, same counts, same shares, same infos.
  lemma ReconcileIsDropThenAdd(was: Models, lists: ClientLists, providers: map<string, string>,
                               c: string, ids: seq<string>, p: string, infos: map<string, ModelInfo>,
                               direct: Models, dropped: Models, again: Models)
    requires TablesOk(lists, providers) && IndexCounts(was, lists, providers)
    requires forall m :: Lookup(direct, m) == Step(was, lists, providers, c, ids, p, infos, m)
    requires DropThenAdd(was, lists, providers, c, ids, p, infos, dropped, again)
    ensures PutList(PutList(lists, c, []), c, ids) == PutList(lists, c, ids)
    ensures PutProvider(PutProvider(providers, c, ""), c, p) == PutProvider(providers, c, p)
    ensures forall m :: Unmarked(Lookup(direct, m)) == Unmarked(Lookup(again, m))
  {
    PutAfterDrop(lists, c, ids);
    PutProviderAfterDrop(providers, c, p);
    forall m ensures Unmarked(Lookup(direct, m)) == Unmarked(Lookup(again, m)) {
      assert SlotCounts(Lookup(was, m), Total(lists, m), Shares(lists, providers, m));
      ReconcileOne(was, lists, providers, c, ids, p, infos, m);
      DropStep(was, lists, providers, c, InfoOf(infos, m), m);
      StepWhenUnknown(dropped, PutList(lists, c, []), PutProvider(providers, c, ""), c, ids, p, infos, m);
    }
  }

  // ... and where they differ is known exactly. In place, the client's own marks go from every
  // model in its old or new list and all other marks stay:
  lemma MarksAfterReconcile(was: Models, lists: ClientLists, providers: map<string, string>,
                            c: string, ids: seq<string>, p: string, infos: map<string, ModelInfo>, direct: Models,
                            m: string)
    requires c in lists && TablesOk(lists, providers)
    requires Lookup(direct, m) == Step(was, lists, providers, c, ids, p, infos, m)
    requires m in direct
    ensures var r := if m in was then was[m] else Blank(InfoOf(infos, m));
            var mine := if m in lists[c] || m in ids then {c} else {};
            direct[m].quotaExceeded == r.quotaExceeded - mine && direct[m].suspended == r.suspended - mine
  {
  }

  // dropping and adding forgets the marks of a model nobody else lists, and keeps a mark the
  // client was given before it listed the model.
  lemma MarksAfterDropThenAdd(was: Models, lists: ClientLists, providers: map<string, string>,
                              c: string, ids: seq<string>, p: string, infos: map<string, ModelInfo>,
                              dropped: Models, again: Models, m: string)
    requires c in lists && TablesOk(lists, providers) && IndexCounts(was, lists, providers)
    requires DropThenAdd(was, lists, providers, c, ids, p, infos, dropped, again)
    requires m in again
    ensures var o := Times(lists[c], m);
            if Total(lists, m) == o then again[m].quotaExceeded == map[] && again[m].suspended == map[]
            else m in was && var mine := if o > 0 then {c} else {};
                 again[m].quotaExceeded == was[m].quotaExceeded - mine && again[m].suspended == was[m].suspended - mine
  {
    var o, slot := Times(lists[c], m), Lookup(was, m);
    assert SlotCounts(slot, Total(lists, m), Shares(lists, providers, m));
    DropMarks(was, lists, providers, c, m);
    TotalPick(lists, c, m);
    StepWhenUnknown(dropped, PutList(lists, c, []), PutProvider(providers, c, ""), c, ids, p, infos, m);
    KeepsMarks(Lookup(dropped, m), c, p, Times(ids, m), InfoOf(infos, m));
  }

  lemma DropMarks(was: Models, lists: ClientLists, providers: map<string, string>, c: string, m: string)
    requires c in lists && SlotCounts(Lookup(was, m), Total(lists, m), Shares(lists, providers, m))
    ensures DroppedMarks(Lookup(was, m), Step(was, lists, providers, c, [], "", map[], m), c, Times(lists[c], m))
  {
    var o := Times(lists[c], m);
    TablesHold(Lookup(was, m), lists, providers, c, m);
    DroppedMarksHold(Lookup(was, m), c, ProviderOf(providers, c), o, InfoOf(map[], m));
    assert Times([], m) == 0;
  }

  lemma DroppedMarksHold(slot: Slot, c: string, oldP: string, o: nat, info: ModelInfo)
    requires Holds(slot, oldP, o)
    ensures DroppedMarks(slot, Rebound(slot, c, o > 0, oldP, o, "", 0, info), c, o)
  {
  }

  ghost predicate DroppedMarks(slot: Slot, dropped: Slot, c: string, o: nat) {
    if slot.None? || slot.value.count <= o then dropped.None?
    else dropped.Some? && var mine := if o > 0 then {c} else {};
         && dropped.value.quotaExceeded == slot.value.quotaExceeded - mine
         && dropped.value.suspended == slot.value.suspended - mine
  }

  lemma KeepsMarks(slot: Slot, c: string, p: string, n: nat, info: ModelInfo)
    ensures var again := Rebound(slot, c, false, "", 0, p, n, info);
            again.Some? ==> if slot.None? then again.value.quotaExceeded == map[] && again.value.suspended == map[]
                            else again.value.quotaExceeded == slot.value.quotaExceeded
                                 && again.value.suspended == slot.value.suspended
  {
  }

  ghost predicate SameMarks(a: Registration, b: Registration) {
    a.quotaExceeded == b.quotaExceeded && a.suspended == b.suspended
  }

  // The marks before that both ways of re-registering treat alike: on a model only this client lists,
  // none but its own; on one it newly lists, none of its own.
  ghost predicate MarksSafe(was: Models, lists: ClientLists, c: string, ids: seq<string>, m: string)
    requires c in lists
  {
    m in was ==>
      var marked := was[m].quotaExceeded.Keys + was[m].suspended.Keys;
      if m in lists[c] then Total(lists, m) == Times(lists[c], m) ==> marked <= {c}
      else m in ids ==> c !in marked
  }

  lemma MinusNone(marks: map<string, int>, reasons: map<string, string>, c: string)
    ensures marks - {} == marks && reasons - {} == reasons
    ensures marks - {c} == map[] <==> marks.Keys <= {c}
    ensures reasons - {c} == map[] <==> reasons.Keys <= {c}
    ensures marks - {c} == marks <==> c !in marks
    ensures reasons - {c} == reasons <==> c !in reasons
  {
    assert marks - {c} == map[] ==> forall k :: k in marks ==> k in {c} by {
      if marks - {c} == map[] {
        forall k | k in marks ensures k in {c} {
          assert k in {c} || k in marks - {c};
        }
      }
    }
    assert reasons - {c} == map[] ==> forall k :: k in reasons ==> k in {c} by {
      if reasons - {c} == map[] {
        forall k | k in reasons ensures k in {c} {
          assert k in {c} || k in reasons - {c};
        }
      }
    }
  }

  // So the two ways agree on a model's marks exactly if the marks before were safe.
  lemma MarksAgreeExactly(was: Models, lists: ClientLists, providers: map<string, string>,
                          c: string, ids: seq<string>, p: string, infos: map<string, ModelInfo>,
                          direct: Models, dropped: Models, again: Models, m: string)
    requires c in lists && TablesOk(lists, providers) && IndexCounts(was, lists, providers)
    requires forall m :: Lookup(direct, m) == Step(was, lists, providers, c, ids, p, infos, m)
    requires DropThenAdd(was, lists, providers, c, ids, p, infos, dropped, again)
    requires m in direct && m in again
    ensures SameMarks(direct[m], again[m]) <==> MarksSafe(was, lists, c, ids, m)
  {
    assert Lookup(direct, m) == Step(was, lists, providers, c, ids, p, infos, m);
    MarksAfterReconcile(was, lists, providers, c, ids, p, infos, direct, m);
    MarksAfterDropThenAdd(was, lists, providers, c, ids, p, infos, dropped, again, m);
    assert SlotCounts(Lookup(was, m), Total(lists, m), Shares(lists, providers, m));
    TotalPick(lists, c, m);
    if m in was {
      MinusNone(was[m].quotaExceeded, was[m].suspended, c);
    }
  }

  // An input where they differ: "a" lists x, "b" lists y, and "b" was given a cooldown on x; then "b"
  // registers x.
  const TWO_LISTS: ClientLists := map["a" := ["x"], "b" := ["y"]]

  function Single(m: string): Registration {
    Blank(ModelInfo(m, "")).(count := 1)
  }

  const TWO_MODELS: Models := map["x" := Single("x").(quotaExceeded := map["b" := 0]), "y" := Single("y")]

  lemma TwoCounts(m: string)
    ensures SlotCounts(Lookup(TWO_MODELS, m), Total(TWO_LISTS, m), Shares(TWO_LISTS, map[], m))
  {
    TotalPick(TWO_LISTS, "a", m);
    TotalPick(TWO_LISTS - {"a"}, "b", m);
    assert TWO_LISTS - {"a"} - {"b"} == map[];
    assert Times(["x"], m) == (if m == "x" then 1 else 0) && Times(["y"], m) == (if m == "y" then 1 else 0);
    assert Shares(TWO_LISTS, map[], m) == map[];
  }

  function Applied(was: Models, lists: ClientLists, c: string, ids: seq<string>): Models {
    map m | m in was.Keys + (set id | id in ids) && Step(was, lists, map[], c, ids, "", map[], m).Some? ::
      Step(was, lists, map[], c, ids, "", map[], m).value
  }

  lemma AppliedIsStep(was: Models, lists: ClientLists, c: string, ids: seq<string>, m: string)
    requires SlotCounts(Lookup(was, m), Total(lists, m), Shares(lists, map[], m))
    ensures Lookup(Applied(was, lists, c, ids), m) == Step(was, lists, map[], c, ids, "", map[], m)
  {
    if m !in was && m !in ids {
      TablesHold(Lookup(was, m), lists, map[], c, m);
    }
  }

  lemma AppliedIsStepAll(was: Models, lists: ClientLists, c: string, ids: seq<string>)
    requires IndexCounts(was, lists, map[])
    ensures forall m :: Lookup(Applied(was, lists, c, ids), m) == Step(was, lists, map[], c, ids, "", map[], m)
  {
    forall m ensures Lookup(Applied(was, lists, c, ids), m) == Step(was, lists, map[], c, ids, "", map[], m) {
      assert SlotCounts(Lookup(was, m), Total(lists, m), Shares(lists, map[], m));
      AppliedIsStep(was, lists, c, ids, m);
    }
  }

  const DIRECT: Models := Applied(TWO_MODELS, TWO_LISTS, "b", ["x"])
  const DROPPED: Models := Applied(TWO_MODELS, TWO_LISTS, "b", [])
  const AGAIN: Models := Applied(DROPPED, PutList(TWO_LISTS, "b", []), "b", ["x"])

  lemma TwoHold()
    ensures TablesOk(TWO_LISTS, map[]) && IndexCounts(TWO_MODELS, TWO_LISTS, map[])
  {
    forall m ensures SlotCounts(Lookup(TWO_MODELS, m), Total(TWO_LISTS, m), Shares(TWO_LISTS, map[], m)) {
      TwoCounts(m);
    }
  }

  lemma DifferingMarks()
    ensures "x" in DIRECT && DIRECT["x"].quotaExceeded == map[]
    ensures "x" in AGAIN && AGAIN["x"].quotaExceeded == map["b" := 0]
  {
    assert Times(["x"], "x") == 1 && Times(["y"], "x") == 0 && Times([], "x") == 0;
  }

  lemma MarksCanDiffer()
    ensures TablesOk(TWO_LISTS, map[]) && IndexCounts(TWO_MODELS, TWO_LISTS, map[])
    ensures forall m :: Lookup(DIRECT, m) == Step(TWO_MODELS, TWO_LISTS, map[], "b", ["x"], "", map[], m)
    ensures DropThenAdd(TWO_MODELS, TWO_LISTS, map[], "b", ["x"], "", map[], DROPPED, AGAIN)
    ensures "x" in DIRECT && "x" in AGAIN && !SameMarks(DIRECT["x"], AGAIN["x"])
  {
    TwoHold();
    AppliedIsStepAll(TWO_MODELS, TWO_LISTS, "b", ["x"]);
    AppliedIsStepAll(TWO_MODELS, TWO_LISTS, "b", []);
    StepKeepsCounts(TWO_MODELS, TWO_LISTS, map[], "b", [], "", map[], DROPPED);
    assert PutProvider(map[], "b", "") == map[];
    AppliedIsStepAll(DROPPED, PutList(TWO_LISTS, "b", []), "b", ["x"]);
    DifferingMarks();
  }

  // Registering an absent client and unregistering it again restores every count and share.
  lemma RegisterThenUnregister(was: Models, lists: ClientLists, providers: map<string, string>,
                               c: string, ids: seq<string>, p: string, infos: map<string, ModelInfo>,
                               with: Models, without: Models)
    requires TablesOk(lists, providers) && IndexCounts(was, lists, providers)
    requires c !in lists && ids != []
    requires forall m :: Lookup(with, m) == Step(was, lists, providers, c, ids, p, infos, m)
    requires forall m :: Lookup(without, m) ==
               Step(with, PutList(lists, c, ids), PutProvider(providers, c, p), c, [], "", map[], m)
    ensures PutList(PutList(lists, c, ids), c, []) == lists
    ensures PutProvider(PutProvider(providers, c, p), c, "") == providers
    ensures without.Keys == was.Keys
    ensures forall m :: m in was ==> without[m].count == was[m].count && without[m].providers == was[m].providers
  {
    TablesRestored(lists, providers, c, ids, p);
    StepKeepsCounts(was, lists, providers, c, ids, p, infos, with);
    StepKeepsCounts(with, PutList(lists, c, ids), PutProvider(providers, c, p), c, [], "", map[], without);
    TablesDetermineCounts(was, without, lists, providers);
  }

  lemma TablesRestored(lists: ClientLists, providers: map<string, string>, c: string, ids: seq<string>, p: string)
    requires TablesOk(lists, providers) && c !in lists && ids != []
    ensures TablesOk(PutList(lists, c, ids), PutProvider(providers, c, p))
    ensures PutList(PutList(lists, c, ids), c, []) == lists
    ensures PutProvider(PutProvider(providers, c, p), c, "") == providers
  {
    NoBlankProvider(providers, c, p);
    assert lists[c := ids] - {c} == lists;
    assert c !in providers && providers - {c} == providers && providers[c := p] - {c} == providers;
  }

  // ----- Availability by counting -----

  ghost function Owners(lists: ClientLists, m: string): set<string> {
    set c | c in lists && m in lists[c]
  }

  lemma OwnersPick(lists: ClientLists, c: string, m: string)
    requires c in lists
    ensures |Owners(lists, m)| == |Owners(lists - {c}, m)| + (if m in lists[c] then 1 else 0)
  {
    var rest := Owners(lists - {c}, m);
    assert Owners(lists, m) == rest + (if m in lists[c] then {c} else {});
  }

  // No client lists m twice.
  ghost predicate ListedOnce(lists: ClientLists, m: string) {
    forall c :: c in lists ==> Times(lists[c], m) <= 1
  }

  lemma ListedOncePick(lists: ClientLists, d: string, m: string)
    requires d in lists
    ensures ListedOnce(lists, m) <==> Times(lists[d], m) <= 1 && ListedOnce(lists - {d}, m)
  {
    if Times(lists[d], m) <= 1 && ListedOnce(lists - {d}, m) {
      forall c | c in lists ensures Times(lists[c], m) <= 1 {
        assert c != d ==> c in lists - {d} && (lists - {d})[c] == lists[c];
      }
    }
  }

  lemma {:induction false} TotalAgainstOwners(lists: ClientLists, m: string)
    ensures Total(lists, m) >= |Owners(lists, m)|
    ensures Total(lists, m) == |Owners(lists, m)| <==> ListedOnce(lists, m)
    decreases |lists|
  {
    if lists == map[] {
      assert Owners(lists, m) == {};
    } else {
      var d :| d in lists && Total(lists, m) == Times(lists[d], m) + Total(lists - {d}, m);
      TotalAgainstOwners(lists - {d}, m);
      OwnersPick(lists, d, m);
      ListedOncePick(lists, d, m);
    }
  }

  // Some registered client lists m and is neither cooling down nor suspended for it.
  ghost predicate HasWitness(lists: ClientLists, m: string, r: Registration, now: int) {
    exists c :: c in Owners(lists, m) && c !in ActiveMarks(r.quotaExceeded, now) && c !in r.suspended
  }

  lemma UnionAtMost(a: set<string>, b: set<string>)
    ensures |a + b| <= |a| + |b|
  {
    assert a + b == a + (b - a);
  }

  lemma SmallerSetLeavesOut(a: set<string>, b: set<string>)
    requires |a| > |b|
    ensures exists x :: x in a && x !in b
  {
    assert |a * b| + |a - b| == |a| by { assert a * b + (a - b) == a; }
    assert |a * b| + |b - a| == |b| by { assert a * b + (b - a) == b; }
    assert a - b != {};
    var x :| x in a - b;
  }

  // A positive count has a witness whatever the marks, even where one client is both cooling down
  // and suspended or marks belong to non-owners ...
  lemma CountHasWitness(lists: ClientLists, m: string, r: Registration, now: int)
    requires r.count == Total(lists, m) && ModelCount(Some(r), now) > 0
    requires ListedOnce(lists, m)
    ensures HasWitness(lists, m, r, now)
  {
    TotalAgainstOwners(lists, m);
    var cooling, out := ActiveMarks(r.quotaExceeded, now), r.suspended.Keys;
    UnionAtMost(cooling, out);
    SmallerSetLeavesOut(Owners(lists, m), cooling + out);
  }

  // An entry the registry can hold for these client tables, with any marks.
  ghost predicate CanHold(lists: ClientLists, providers: map<string, string>, m: string, r: Registration) {
    SlotCounts(Some(r), Total(lists, m), Shares(lists, providers, m))
  }

  // Everyone who lists the model is suspended for it.
  lemma AllSuspended(lists: ClientLists, providers: map<string, string>, m: string) returns (r: Registration)
    requires Total(lists, m) > |Owners(lists, m)|
    ensures CanHold(lists, providers, m, r) && ModelCount(Some(r), 0) > 0 && !HasWitness(lists, m, r, 0)
  {
    var shares := Shares(lists, providers, m);
    var suspended := map c | c in Owners(lists, m) :: "";
    assert suspended.Keys == Owners(lists, m) && |suspended| == |suspended.Keys|;
    var infos := map p | p in shares :: ModelInfo(m, "");
    assert infos.Keys == shares.Keys;
    r := Registration(ModelInfo(m, ""), infos, Total(lists, m), map[], shares, suspended);
    assert ActiveMarks(r.quotaExceeded, 0) == {};
  }

  // ... exactly when no client lists the model twice: then, and only then, whatever the marks and the
  // instant, for every entry the registry can hold.
  lemma CountMeansAvailable(lists: ClientLists, providers: map<string, string>, m: string)
    ensures (forall r, now ::
             CanHold(lists, providers, m, r) && ModelCount(Some(r), now) > 0 ==> HasWitness(lists, m, r, now))
            <==> ListedOnce(lists, m)
  {
    if ListedOnce(lists, m) {
      forall r, now | CanHold(lists, providers, m, r) && ModelCount(Some(r), now) > 0
        ensures HasWitness(lists, m, r, now)
      {
        CountHasWitness(lists, m, r, now);
      }
    } else {
      TotalAgainstOwners(lists, m);
      var r := AllSuspended(lists, providers, m);
    }
  }

  // ----- Who makes a model available -----

  // The clients whose mark on the model is less than five minutes old ...
  ghost function Resting(r: Registration, now: int): set<string> {
    set c | c in r.quotaExceeded && now - r.quotaExceeded[c] < 300
  }

  // ... and those suspended for another reason than quota.
  ghost function Barred(r: Registration): set<string> {
    set c | c in r.suspended && ToLower(r.suspended[c]) != "quota"
  }

  lemma QuotaIsLower()
    ensures ToLower("quota") == "quota"
  {
  }

  lemma MarksAreSets(r: Registration, now: int)
    ensures ActiveMarks(r.quotaExceeded, now) == Resting(r, now)
    ensures OtherSuspended(r.suspended) == Barred(r)
  {
    QuotaIsLower();
  }

  // Cleaning up keeps just the marks of resting clients, and everything else.
  lemma CleanedIsResting(r: Registration, now: int)
    ensures var q := Cleaned(r, now).quotaExceeded;
            && Cleaned(r, now) == r.(quotaExceeded := q) && q.Keys == Resting(r, now)
            && forall c :: c in q ==> q[c] == r.quotaExceeded[c]
  {
  }

  // Whatever the marks: a model that is listed at all is available if nobody is suspended for another
  // reason than quota, or if it is listed more often than there are marks of the two kinds.
  lemma AvailableWhen(r: Registration, now: int)
    ensures Available(r, now) <==>
            r.count > 0 && (Barred(r) == {} || r.count > |Resting(r, now)| + |Barred(r)|)
  {
    MarksAreSets(r, now);
  }

  ghost predicate OwnersMarked(lists: ClientLists, m: string, r: Registration) {
    r.quotaExceeded.Keys <= Owners(lists, m) && r.suspended.Keys <= Owners(lists, m)
  }

  lemma LeftBy(all: set<string>, a: set<string>, b: set<string>)
    requires a <= all && b <= all
    ensures |all| + |a * b| == |all - a - b| + |a| + |b|
  {
    assert |all| == |all - a - b| + |a + b| by { assert all == (all - a - b) + (a + b); }
    assert |a + b| + |a * b| == |a| + |b| by {
      assert a + b == a + (b - a);
      assert b == (b - a) + a * b;
    }
  }

  // In terms of the clients that list it, each once: a model is available exactly if none of them is
  // suspended for another reason than quota, or if more of them are neither resting nor so suspended
  // than are both.
  lemma AvailableExactly(lists: ClientLists, m: string, r: Registration, now: int)
    requires r.count == Total(lists, m) && ListedOnce(lists, m) && OwnersMarked(lists, m, r)
    ensures var owners, resting, barred := Owners(lists, m), Resting(r, now), Barred(r);
            Available(r, now) <==> owners != {} && (barred == {} || |owners - resting - barred| > |resting * barred|)
  {
    TotalAgainstOwners(lists, m);
    AvailableWhen(r, now);
    LeftBy(Owners(lists, m), Resting(r, now), Barred(r));
  }

  // The count is that of the clients neither resting nor suspended, less those that are both.
  lemma CountExactly(lists: ClientLists, m: string, r: Registration, now: int)
    requires r.count == Total(lists, m) && ListedOnce(lists, m) && OwnersMarked(lists, m, r)
    ensures var owners, resting, out := Owners(lists, m), Resting(r, now), r.suspended.Keys;
            var free, both := |owners - resting - out|, |resting * out|;
            ModelCount(Some(r), now) == if free > both then free - both else 0
  {
    TotalAgainstOwners(lists, m);
    CountIs(r, now);
    LeftBy(Owners(lists, m), Resting(r, now), r.suspended.Keys);
  }

  lemma CountIs(r: Registration, now: int)
    ensures var left := r.count - |Resting(r, now)| - |r.suspended.Keys|;
            ModelCount(Some(r), now) == if left > 0 then left else 0
  {
    MarksAreSets(r, now);
    assert |r.suspended| == |r.suspended.Keys|;
  }

  // Two clients list a model, and one of them both rests and is suspended: its two marks count against
  // both, and the model is not available although the other client is free.
  lemma FreeClientNotSeen(m: string)
    ensures var lists: ClientLists := map["a" := [m], "b" := [m]];
            var r := Single(m).(count := 2, quotaExceeded := map["b" := 0], suspended := map["b" := "unauthorized"]);
            && r.count == Total(lists, m) && ListedOnce(lists, m) && OwnersMarked(lists, m, r)
            && HasWitness(lists, m, r, 0) && !Available(r, 0)
  {
    var lists: ClientLists := map["a" := [m], "b" := [m]];
    var r := Single(m).(count := 2, quotaExceeded := map["b" := 0], suspended := map["b" := "unauthorized"]);
    TwoListed(lists, m);
    NotQuota();
    MarkedTwice(r, "b", "unauthorized");
    assert "a" in Owners(lists, m) && "a" !in r.suspended;
  }

  lemma NotQuota()
    ensures ToLower("unauthorized") != "quota"
  {
    assert ToLower("unauthorized")[0] == 'u' && "quota"[0] == 'q';
  }

  lemma MarkedTwice(r: Registration, c: string, reason: string)
    requires r.quotaExceeded == map[c := 0] && r.suspended == map[c := reason] && ToLower(reason) != "quota"
    requires r.count == 2
    ensures !Available(r, 0)
  {
    assert Resting(r, 0) == {c} && Barred(r) == {c};
    AvailableWhen(r, 0);
  }

  lemma TwoListed(lists: ClientLists, m: string)
    requires lists == map["a" := [m], "b" := [m]]
    ensures Total(lists, m) == 2 && ListedOnce(lists, m) && Owners(lists, m) == {"a", "b"}
  {
    TotalPick(lists, "a", m);
    TotalPick(lists - {"a"}, "b", m);
    assert lists - {"a"} - {"b"} == map[];
    assert Times([m], m) == 1;
  }
}
