/** The model registry: a reference-counted index of models kept incrementally from client
    registrations, with cooldowns, suspensions and a per-handler cache of the available models.
    One method per locked operation; the clock is an argument that never goes back. */
module ModelRegistry {
  import opened Text
  import opened RegistryModel
  import opened ProviderRanking
  import PL = ProviderListing

  predicate Named(model: Option<ModelInfo>) {
    model.Some? && model.value.id != ""
  }

  // The identifiers of the named entries, repetitions kept.
  function RawIds(models: seq<Option<ModelInfo>>): seq<string> {
    if models == [] then [] else
      var last := models[|models| - 1];
      RawIds(models[..|models| - 1]) + (if Named(last) then [last.value.id] else [])
  }

  // The first entry given for each identifier.
  function FirstInfos(models: seq<Option<ModelInfo>>): (infos: map<string, ModelInfo>)
    ensures forall m :: m in infos <==> m in RawIds(models)
    ensures forall m :: m in infos ==> infos[m].id == m
  {
    if models == [] then map[] else
      var last := models[|models| - 1];
      var infos := FirstInfos(models[..|models| - 1]);
      if Named(last) && last.value.id !in infos then infos[last.value.id := last.value] else infos
  }

  // The provider recorded for a registration: none when it names no model.
  function ProviderFor(clientProvider: string, models: seq<Option<ModelInfo>>): string {
    if RawIds(models) == [] then "" else ToLower(clientProvider)
  }

  // ----- What a list names -----

  predicate NamedAs(model: Option<ModelInfo>, m: string) {
    model.Some? && model.value.id == m && m != ""
  }

  // The places of the list where m is named.
  function Mentions(list: seq<Option<ModelInfo>>, m: string): set<nat> {
    set i: nat | i < |list| && NamedAs(list[i], m)
  }

  ghost predicate NamesSome(list: seq<Option<ModelInfo>>) {
    exists i :: 0 <= i < |list| && list[i].Some? && list[i].value.id != ""
  }

  lemma MentionsOneMore(list: seq<Option<ModelInfo>>, m: string)
    requires list != []
    ensures |Mentions(list, m)|
            == |Mentions(list[..|list| - 1], m)| + (if NamedAs(list[|list| - 1], m) then 1 else 0)
  {
    var n := |list| - 1;
    assert Mentions(list, m) == Mentions(list[..n], m) + (if NamedAs(list[n], m) then {n} else {});
  }

  lemma TimesSnoc(ids: seq<string>, id: string, m: string)
    ensures Times(ids + [id], m) == Times(ids, m) + (if id == m then 1 else 0)
  {
  }

  lemma {:induction false} RawIdsMention(list: seq<Option<ModelInfo>>, m: string)
    ensures Times(RawIds(list), m) == |Mentions(list, m)|
  {
    if list == [] {
      assert Mentions(list, m) == {};
    } else {
      var last, before := list[|list| - 1], RawIds(list[..|list| - 1]);
      RawIdsMention(list[..|list| - 1], m);
      MentionsOneMore(list, m);
      if Named(last) {
        TimesSnoc(before, last.value.id, m);
      } else {
        assert before + [] == before;
      }
    }
  }

  lemma RawIdsSome(list: seq<Option<ModelInfo>>)
    ensures RawIds(list) == [] <==> !NamesSome(list)
  {
    if RawIds(list) != [] {
      var m := RawIds(list)[0];
      assert m in RawIds(list);
      RawIdsMention(list, m);
      assert Mentions(list, m) != {};
      var i :| i in Mentions(list, m);
    }
    if i :| 0 <= i < |list| && list[i].Some? && list[i].value.id != "" {
      RawIdsMention(list, list[i].value.id);
      assert i in Mentions(list, list[i].value.id);
    }
  }

  // The first entry of the list that names m is the one whose info counts.
  ghost predicate FirstNaming(list: seq<Option<ModelInfo>>, m: string, info: ModelInfo) {
    exists i :: 0 <= i < |list| && NamedAs(list[i], m) && list[i].value == info
                && forall j :: 0 <= j < i ==> !NamedAs(list[j], m)
  }

  lemma FirstNamingStays(list: seq<Option<ModelInfo>>, m: string, info: ModelInfo)
    requires list != [] && FirstNaming(list[..|list| - 1], m, info)
    ensures FirstNaming(list, m, info)
  {
    var before := list[..|list| - 1];
    var i :| 0 <= i < |before| && NamedAs(before[i], m) && before[i].value == info
             && forall j :: 0 <= j < i ==> !NamedAs(before[j], m);
    assert NamedAs(list[i], m) && forall j :: 0 <= j < i ==> list[j] == before[j];
  }

  lemma {:induction false} FirstInfosAreFirst(list: seq<Option<ModelInfo>>, m: string)
    ensures m in FirstInfos(list) <==> Mentions(list, m) != {}
    ensures m in FirstInfos(list) ==> FirstNaming(list, m, FirstInfos(list)[m])
  {
    RawIdsMention(list, m);
    if m in FirstInfos(list) {
      var n := |list| - 1;
      var before := FirstInfos(list[..n]);
      FirstInfosAreFirst(list[..n], m);
      RawIdsMention(list[..n], m);
      if m in before {
        FirstNamingStays(list, m, before[m]);
      } else {
        var prefix := list[..n];
        assert NamedAs(list[n], m) && Mentions(prefix, m) == {};
        forall j | 0 <= j < n ensures !NamedAs(list[j], m) {
          assert j !in Mentions(prefix, m) && prefix[j] == list[j];
        }
      }
    }
  }

  // What a caller finds in the tables after a registration: the client's list names each model as often
  // as the given one, and it counts for its provider, lower-cased, if it has one.
  ghost predicate Recorded(lists: ClientLists, providers: map<string, string>, c: string, provider: string,
                           list: seq<Option<ModelInfo>>)
  {
    && (c in lists <==> NamesSome(list))
    && (c in lists ==> forall m :: Times(lists[c], m) == |Mentions(list, m)|)
    && (c in providers <==> NamesSome(list) && provider != "")
    && (c in providers ==> providers[c] == ToLower(provider))
    && (provider != "" ==> forall m :: Share(lists, providers, m, ToLower(provider)) >= |Mentions(list, m)|)
  }

  lemma OwnShare(lists: ClientLists, providers: map<string, string>, c: string, m: string)
    requires c in lists && c in providers
    ensures Share(lists, providers, m, providers[c]) >= Times(lists[c], m)
  {
    TotalPick(Owned(lists, providers, providers[c]), c, m);
  }

  lemma PutIsRecorded(lists: ClientLists, providers: map<string, string>, c: string, provider: string,
                      list: seq<Option<ModelInfo>>)
    ensures Recorded(PutList(lists, c, RawIds(list)), PutProvider(providers, c, ProviderFor(provider, list)), c,
                     provider, list)
  {
    var lists', providers' := PutList(lists, c, RawIds(list)), PutProvider(providers, c, ProviderFor(provider, list));
    RawIdsSome(list);
    forall m ensures Times(RawIds(list), m) == |Mentions(list, m)| {
      RawIdsMention(list, m);
    }
    if provider != "" {
      forall m ensures Share(lists', providers', m, ToLower(provider)) >= |Mentions(list, m)| {
        if c in providers' {
          OwnShare(lists', providers', c, m);
        }
      }
    }
  }

  ghost predicate Counts(counts: map<string, int>, ids: seq<string>) {
    && (forall m :: m in counts <==> m in ids)
    && (forall m :: m in counts ==> counts[m] == Times(ids, m))
  }

  function CountIn(counts: map<string, int>, m: string): int {
    if m in counts then counts[m] else 0
  }

  lemma NamesNotBlank(list: seq<Option<ModelInfo>>)
    ensures "" !in RawIds(list)
  {
  }

  lemma CountsOneMore(counts: map<string, int>, ids: seq<string>, m: string)
    requires Counts(counts, ids)
    ensures Counts(counts[m := CountIn(counts, m) + 1], ids + [m])
  {
    assert forall k :: Times(ids + [m], k) == Times(ids, k) + (if k == m then 1 else 0);
  }

  ghost predicate Distinct(ids: seq<string>) {
    forall i, j :: 0 <= i < j < |ids| ==> ids[i] != ids[j]
  }

  // ids are the keys of infos, each once.
  ghost predicate Keyed(ids: seq<string>, infos: map<string, ModelInfo>) {
    Distinct(ids) && forall m :: m in ids <==> m in infos
  }

  lemma KeyedOneMore(ids: seq<string>, infos: map<string, ModelInfo>, model: ModelInfo)
    requires Keyed(ids, infos) && model.id !in infos
    ensures Keyed(ids + [model.id], infos[model.id := model])
  {
    assert forall i :: 0 <= i < |ids| ==> ids[i] in ids;
  }

  lemma BothEmpty(a: seq<string>, b: seq<string>)
    requires forall m :: m in a <==> m in b
    ensures a == [] <==> b == []
  {
    if a != [] {
      assert a[0] in a;
    }
    if b != [] {
      assert b[0] in b;
    }
  }

  // The tables collected from the first i entries, one entry further.
  lemma CollectStep(list: seq<Option<ModelInfo>>, i: nat)
    requires i < |list|
    ensures RawIds(list[..i + 1]) == RawIds(list[..i]) + (if Named(list[i]) then [list[i].value.id] else [])
    ensures FirstInfos(list[..i + 1]) ==
            if Named(list[i]) && list[i].value.id !in FirstInfos(list[..i])
            then FirstInfos(list[..i])[list[i].value.id := list[i].value] else FirstInfos(list[..i])
  {
    assert list[..i + 1][..i] == list[..i];
  }

  type Models = map<string, Registration>

  // Of every model the list names the first entry given for it is on file, for its provider too.
  ghost predicate InfosFiled(models: Models, provider: string, list: seq<Option<ModelInfo>>) {
    forall m :: Mentions(list, m) != {} ==>
      && m in models && FirstNaming(list, m, models[m].info)
      && (provider != "" ==>
            ToLower(provider) in models[m].infoByProvider
            && models[m].infoByProvider[ToLower(provider)] == models[m].info)
  }

  lemma ReboundFilesInfo(slot: Slot, c: string, clears: bool, oldP: string, o: nat, p: string, n: nat, info: ModelInfo)
    requires Holds(slot, oldP, o) && n > 0
    ensures var s := Rebound(slot, c, clears, oldP, o, p, n, info);
            s.Some? && s.value.info == info
            && (p != "" ==> p in s.value.infoByProvider && s.value.infoByProvider[p] == info)
  {
  }

  lemma StepFilesInfos(was: Models, lists: ClientLists, providers: map<string, string>, c: string, provider: string,
                       list: seq<Option<ModelInfo>>, models: Models)
    requires IndexCounts(was, lists, providers)
    requires forall m :: Lookup(models, m) ==
               Step(was, lists, providers, c, RawIds(list), ProviderFor(provider, list), FirstInfos(list), m)
    ensures InfosFiled(models, provider, list)
  {
    forall m | Mentions(list, m) != {}
      ensures m in models && FirstNaming(list, m, models[m].info)
      ensures provider != "" ==> ToLower(provider) in models[m].infoByProvider
                                 && models[m].infoByProvider[ToLower(provider)] == models[m].info
    {
      var ids, p, infos := RawIds(list), ProviderFor(provider, list), FirstInfos(list);
      RawIdsMention(list, m);
      FirstInfosAreFirst(list, m);
      assert SlotCounts(Lookup(was, m), Total(lists, m), Shares(lists, providers, m));
      TablesHold(Lookup(was, m), lists, providers, c, m);
      var o, n := Times(ListOf(lists, c), m), Times(ids, m);
      ReboundFilesInfo(Lookup(was, m), c, c in lists && o + n > 0, ProviderOf(providers, c), o, p, n, InfoOf(infos, m));
      assert Lookup(models, m) == Step(was, lists, providers, c, ids, p, infos, m);
    }
  }

  // The phases of reconciling an existing client, entry by entry, add up to one step.
  lemma PhasesAreStep(was: Models, lists: ClientLists, providers: map<string, string>, c: string, ids: seq<string>,
                      p: string, infos: map<string, ModelInfo>, m: string)
    requires c in lists && SlotCounts(Lookup(was, m), Total(lists, m), Shares(lists, providers, m))
    ensures Phases(Lookup(was, m), c, ProviderOf(providers, c), Times(lists[c], m), p, Times(ids, m), InfoOf(infos, m))
            == Step(was, lists, providers, c, ids, p, infos, m)
  {
    TablesHold(Lookup(was, m), lists, providers, c, m);
    PhasesAreRebound(Lookup(was, m), c, ProviderOf(providers, c), Times(lists[c], m), p, Times(ids, m),
                     InfoOf(infos, m));
  }

  lemma GoneAgain<V>(table: map<string, V>, c: string)
    ensures table - {c} - {c} == table - {c}
  {
  }

  lemma TablesStay(lists: ClientLists, providers: map<string, string>, c: string, ids: seq<string>, p: string)
    requires TablesOk(lists, providers) && (ids == [] ==> p == "")
    ensures TablesOk(PutList(lists, c, ids), PutProvider(providers, c, p))
  {
    NoBlankProvider(providers, c, p);
  }

  lemma InfosStay(infos: map<string, map<string, ModelInfo>>, lists: ClientLists, c: string, ids: seq<string>,
                  news: map<string, ModelInfo>)
    requires infos.Keys == lists.Keys
    ensures (if ids == [] then infos - {c} else infos[c := news]).Keys == PutList(lists, c, ids).Keys
  {
  }

  // Each model of ids was added as often as it stands there.
  ghost predicate Added(now: Models, was: Models, p: string, infos: map<string, ModelInfo>, ids: seq<string>) {
    forall m :: Lookup(now, m) == AddTimes(Lookup(was, m), p, InfoOf(infos, m), Times(ids, m))
  }

  lemma AddedNext(next: Models, now: Models, was: Models, p: string, infos: map<string, ModelInfo>, ids: seq<string>,
                  id: string)
    requires id in infos && Added(now, was, p, infos, ids)
    requires forall m :: Lookup(next, m) == if m == id then AddOne(Lookup(now, m), p, infos[id]) else Lookup(now, m)
    ensures Added(next, was, p, infos, ids + [id])
  {
    forall m ensures Lookup(next, m) == AddTimes(Lookup(was, m), p, InfoOf(infos, m), Times(ids + [id], m)) {
      assert Times(ids + [id], m) == Times(ids, m) + (if m == id then 1 else 0);
    }
  }

  // The suspensions a loop has looked at: the cooldowns and the others.
  ghost function CoolingSeen(suspended: map<string, string>, todo: set<string>): nat {
    |CooldownSuspended(suspended) - todo|
  }

  ghost function OthersSeen(suspended: map<string, string>, todo: set<string>): nat {
    |OtherSuspended(suspended) - todo|
  }

  lemma SeenOneMore(suspended: map<string, string>, todo: set<string>, c: string)
    requires c in todo && todo <= suspended.Keys
    ensures var isQuota := EqualFold(suspended[c], QUOTA_REASON);
            && CoolingSeen(suspended, todo - {c}) == CoolingSeen(suspended, todo) + (if isQuota then 1 else 0)
            && OthersSeen(suspended, todo - {c}) == OthersSeen(suspended, todo) + (if isQuota then 0 else 1)
  {
    PL.OneFewer(CooldownSuspended(suspended), todo, c);
    PL.OneFewer(OtherSuspended(suspended), todo, c);
  }

  lemma SeenBounds(suspended: map<string, string>)
    ensures CoolingSeen(suspended, suspended.Keys) == 0 && OthersSeen(suspended, suspended.Keys) == 0
    ensures CoolingSeen(suspended, {}) == |CooldownSuspended(suspended)|
            && OthersSeen(suspended, {}) == |OtherSuspended(suspended)|
  {
    PL.Bounds(CooldownSuspended(suspended), suspended.Keys);
    PL.Bounds(OtherSuspended(suspended), suspended.Keys);
  }

  class Registry {
    var models: map<string, Registration>
    var clientModels: map<string, seq<string>>
    var clientModelInfos: map<string, map<string, ModelInfo>>
    var clientProviders: map<string, string>
    var availableModelsCache: map<string, CacheEntry>
    ghost var clock: int

    ghost predicate Valid()
      reads this
    {
      && TablesOk(clientModels, clientProviders)
      && clientModelInfos.Keys == clientModels.Keys
      && IndexCounts(models, clientModels, clientProviders)
      && CacheCoherent(availableModelsCache, models, clock)
    }

    constructor ()
      ensures Valid() && models == map[] && clientModels == map[] && clientProviders == map[]
    {
      models, clientModels, clientModelInfos, clientProviders := map[], map[], map[], map[];
      availableModelsCache := map[];
      new;
      forall m ensures SlotCounts(Lookup(models, m), Total(clientModels, m), Shares(clientModels, clientProviders, m)) {
        NothingShared(map[], map[], m);
      }
    }

    method InvalidateCache()
      modifies this`availableModelsCache
      ensures availableModelsCache == map[]
    {
      if |availableModelsCache| == 0 {
        return;
      }
      availableModelsCache := map[];
    }

    // One named entry of a client's list.
    static method CollectOne(model: ModelInfo, uniqueIDs: seq<string>, rawIDs: seq<string>,
                             newModels: map<string, ModelInfo>, newCounts: map<string, int>)
      returns (uniqueIDs': seq<string>, rawIDs': seq<string>, newModels': map<string, ModelInfo>,
               newCounts': map<string, int>)
      requires Counts(newCounts, rawIDs) && Keyed(uniqueIDs, newModels)
      ensures rawIDs' == rawIDs + [model.id] && Counts(newCounts', rawIDs')
      ensures newModels' == if model.id in newModels then newModels else newModels[model.id := model]
      ensures Keyed(uniqueIDs', newModels')
    {
      uniqueIDs', newModels' := uniqueIDs, newModels;
      CountsOneMore(newCounts, rawIDs, model.id);
      rawIDs' := rawIDs + [model.id];
      newCounts' := newCounts[model.id := CountIn(newCounts, model.id) + 1];
      if model.id !in newModels {
        KeyedOneMore(uniqueIDs, newModels, model);
        newModels' := newModels[model.id := model];
        uniqueIDs' := uniqueIDs + [model.id];
      }
    }

    static method CollectModels(list: seq<Option<ModelInfo>>)
      returns (uniqueIDs: seq<string>, rawIDs: seq<string>, newModels: map<string, ModelInfo>,
               newCounts: map<string, int>)
      ensures rawIDs == RawIds(list) && newModels == FirstInfos(list) && Counts(newCounts, rawIDs)
      ensures forall m :: m in uniqueIDs <==> m in rawIDs
      ensures uniqueIDs == [] <==> rawIDs == []
      ensures Distinct(uniqueIDs)
    {
      uniqueIDs, rawIDs, newModels, newCounts := [], [], map[], map[];
      for i := 0 to |list|
        invariant rawIDs == RawIds(list[..i]) && newModels == FirstInfos(list[..i])
        invariant Counts(newCounts, rawIDs) && Keyed(uniqueIDs, newModels)
      {
        CollectStep(list, i);
        if Named(list[i]) {
          uniqueIDs, rawIDs, newModels, newCounts :=
            CollectOne(list[i].value, uniqueIDs, rawIDs, newModels, newCounts);
        }
      }
      assert list[..|list|] == list;
      BothEmpty(uniqueIDs, rawIDs);
    }

    static method CountIds(ids: seq<string>) returns (counts: map<string, int>)
      ensures Counts(counts, ids)
    {
      counts := map[];
      for i := 0 to |ids|
        invariant Counts(counts, ids[..i])
      {
        assert ids[..i + 1] == ids[..i] + [ids[i]];
        CountsOneMore(counts, ids[..i], ids[i]);
        counts := counts[ids[i] := CountIn(counts, ids[i]) + 1];
      }
      assert ids[..|ids|] == ids;
    }

    method AddModelRegistration(modelID: string, provider: string, model: ModelInfo)
      requires modelID != ""
      modifies this`models
      ensures forall m :: Lookup(models, m) ==
                if m == modelID then AddOne(old(Lookup(models, m)), provider, model) else old(Lookup(models, m))
    {
      if modelID in models {
        var existing := models[modelID];
        existing := existing.(count := existing.count + 1, info := model);
        if provider != "" {
          var count := if provider in existing.providers then existing.providers[provider] else 0;
          existing := existing.(providers := existing.providers[provider := count + 1],
                                infoByProvider := existing.infoByProvider[provider := model]);
        }
        models := models[modelID := existing];
        return;
      }
      var registration := Registration(model, map[], 1, map[], map[], map[]);
      if provider != "" {
        registration := registration.(providers := map[provider := 1], infoByProvider := map[provider := model]);
      }
      models := models[modelID := registration];
    }

    method RemoveModelRegistration(clientID: string, modelID: string, provider: string)
      modifies this`models
      ensures forall m :: Lookup(models, m) ==
                if m == modelID then DropOne(old(Lookup(models, m)), clientID, provider) else old(Lookup(models, m))
    {
      if modelID !in models {
        return;
      }
      var registration := models[modelID];
      registration := registration.(count := registration.count - 1,
                                    quotaExceeded := registration.quotaExceeded - {clientID},
                                    suspended := registration.suspended - {clientID});
      if registration.count < 0 {
        registration := registration.(count := 0);
      }
      if provider != "" && provider in registration.providers {
        var count := registration.providers[provider];
        if count <= 1 {
          registration := registration.(providers := registration.providers - {provider},
                                        infoByProvider := registration.infoByProvider - {provider});
        } else {
          registration := registration.(providers := registration.providers[provider := count - 1]);
        }
      }
      if registration.count <= 0 {
        models := models - {modelID};
      } else {
        models := models[modelID := registration];
      }
    }

    // The phases of reconciling an existing client. oldIds and newIds are its model lists.

    method MoveOutOldProvider(oldCounts: map<string, int>, newCounts: map<string, int>,
                              oldProvider: string, provider: string, ghost oldIds: seq<string>,
                              ghost newIds: seq<string>)
      requires Counts(oldCounts, oldIds) && Counts(newCounts, newIds)
      requires oldProvider != provider && oldProvider != ""
      modifies this`models
      ensures forall m :: Lookup(models, m) ==
                MovedOut(old(Lookup(models, m)), oldProvider, provider, Times(oldIds, m), Times(newIds, m))
    {
      var todo := newCounts.Keys;
      while todo != {}
        invariant todo <= newCounts.Keys
        invariant forall m :: Lookup(models, m) ==
                    if m in newCounts && m !in todo
                    then MovedOut(old(Lookup(models, m)), oldProvider, provider, Times(oldIds, m), Times(newIds, m))
                    else old(Lookup(models, m))
      {
        var id :| id in todo;
        todo := todo - {id};
        var newCount, oldCount := newCounts[id], CountIn(oldCounts, id);
        if newCount == 0 || oldCount == 0 {
          continue;
        }
        var toRemove := if oldCount < newCount then oldCount else newCount;
        if id in models && oldProvider in models[id].providers {
          var reg := models[id];
          var count := reg.providers[oldProvider];
          if count <= toRemove {
            models := models[id := reg.(providers := reg.providers - {oldProvider},
                                        infoByProvider := reg.infoByProvider - {oldProvider})];
          } else {
            models := models[id := reg.(providers := reg.providers[oldProvider := count - toRemove])];
          }
        }
      }
    }

    method RemoveTimes(clientID: string, modelID: string, provider: string, times: nat)
      modifies this`models
      ensures forall m :: Lookup(models, m) ==
                if m == modelID then DropTimes(old(Lookup(models, m)), clientID, provider, times)
                else old(Lookup(models, m))
    {
      for i := 0 to times
        invariant forall m :: Lookup(models, m) ==
                    if m == modelID then DropTimes(old(Lookup(models, m)), clientID, provider, i)
                    else old(Lookup(models, m))
      {
        RemoveModelRegistration(clientID, modelID, provider);
      }
    }

    method AddTimesTo(modelID: string, provider: string, model: ModelInfo, times: nat)
      requires modelID != ""
      modifies this`models
      ensures forall m :: Lookup(models, m) ==
                if m == modelID then AddTimes(old(Lookup(models, m)), provider, model, times)
                else old(Lookup(models, m))
    {
      for i := 0 to times
        invariant forall m :: Lookup(models, m) ==
                    if m == modelID then AddTimes(old(Lookup(models, m)), provider, model, i)
                    else old(Lookup(models, m))
      {
        AddModelRegistration(modelID, provider, model);
      }
    }

    method ApplyRemovals(clientID: string, oldCounts: map<string, int>, newCounts: map<string, int>,
                         oldProvider: string, ghost oldIds: seq<string>, ghost newIds: seq<string>)
      requires Counts(oldCounts, oldIds) && Counts(newCounts, newIds)
      modifies this`models
      ensures forall m :: Lookup(models, m) ==
                if Times(newIds, m) == 0 then DropTimes(old(Lookup(models, m)), clientID, oldProvider, Times(oldIds, m))
                else old(Lookup(models, m))
    {
      var todo := oldCounts.Keys;
      while todo != {}
        invariant todo <= oldCounts.Keys
        invariant forall m :: Lookup(models, m) ==
                    if m in oldCounts && m !in todo && Times(newIds, m) == 0
                    then DropTimes(old(Lookup(models, m)), clientID, oldProvider, Times(oldIds, m))
                    else old(Lookup(models, m))
      {
        var id :| id in todo;
        todo := todo - {id};
        if CountIn(newCounts, id) == 0 {
          RemoveTimes(clientID, id, oldProvider, oldCounts[id]);
        }
      }
    }

    method ApplyOverage(clientID: string, oldCounts: map<string, int>, newCounts: map<string, int>, oldProvider: string,
                        ghost oldIds: seq<string>, ghost newIds: seq<string>)
      requires Counts(oldCounts, oldIds) && Counts(newCounts, newIds)
      modifies this`models
      ensures forall m :: Lookup(models, m) ==
                var o, n := Times(oldIds, m), Times(newIds, m);
                if 0 < n < o then DropTimes(old(Lookup(models, m)), clientID, oldProvider, o - n)
                else old(Lookup(models, m))
    {
      var todo := oldCounts.Keys;
      while todo != {}
        invariant todo <= oldCounts.Keys
        invariant forall m :: Lookup(models, m) ==
                    var o, n := Times(oldIds, m), Times(newIds, m);
                    if m in oldCounts && m !in todo && 0 < n < o
                    then DropTimes(old(Lookup(models, m)), clientID, oldProvider, o - n)
                    else old(Lookup(models, m))
      {
        var id :| id in todo;
        todo := todo - {id};
        var oldCount, newCount := oldCounts[id], CountIn(newCounts, id);
        if newCount == 0 || oldCount <= newCount {
          continue;
        }
        RemoveTimes(clientID, id, oldProvider, oldCount - newCount);
      }
    }

    method TopOne(modelID: string, provider: string, model: ModelInfo, oldCount: nat, newCount: nat)
      requires modelID != ""
      modifies this`models
      ensures forall m :: Lookup(models, m) ==
                if m == modelID then Topped(old(Lookup(models, m)), provider, oldCount, newCount, model)
                else old(Lookup(models, m))
    {
      if newCount <= oldCount {
        return;
      }
      AddTimesTo(modelID, provider, model, newCount - oldCount);
    }

    method ApplyAdditions(oldCounts: map<string, int>, newCounts: map<string, int>, provider: string,
                          newModels: map<string, ModelInfo>, ghost oldIds: seq<string>, ghost newIds: seq<string>)
      requires Counts(oldCounts, oldIds) && Counts(newCounts, newIds)
      requires "" !in newIds && newModels.Keys == newCounts.Keys
      modifies this`models
      ensures forall m :: Lookup(models, m) ==
                Topped(old(Lookup(models, m)), provider, Times(oldIds, m), Times(newIds, m), InfoOf(newModels, m))
    {
      var todo := newCounts.Keys;
      while todo != {}
        invariant todo <= newCounts.Keys
        invariant forall m :: m !in newCounts || m in todo ==> Lookup(models, m) == old(Lookup(models, m))
        invariant forall m :: m in newCounts && m !in todo ==>
                    Lookup(models, m) == Topped(old(Lookup(models, m)), provider, Times(oldIds, m), Times(newIds, m),
                                                InfoOf(newModels, m))
      {
        var id :| id in todo;
        todo := todo - {id};
        var newCount, oldCount := newCounts[id], CountIn(oldCounts, id);
        TopOne(id, provider, newModels[id], oldCount, newCount);
      }
    }

    method RefreshMetadata(clientID: string, uniqueIDs: seq<string>, oldCounts: map<string, int>,
                           newCounts: map<string, int>,
                           oldProvider: string, provider: string, newModels: map<string, ModelInfo>,
                           ghost oldIds: seq<string>, ghost newIds: seq<string>)
      requires Counts(oldCounts, oldIds) && Counts(newCounts, newIds) && newModels.Keys == newCounts.Keys
      requires forall m :: m in uniqueIDs <==> m in newIds
      requires Distinct(uniqueIDs)
      modifies this`models
      ensures forall m :: Lookup(models, m) ==
                Refreshed(old(Lookup(models, m)), clientID, oldProvider, provider, Times(oldIds, m), Times(newIds, m),
                          InfoOf(newModels, m))
    {
      for i := 0 to |uniqueIDs|
        invariant forall m :: Lookup(models, m) ==
                    if m in uniqueIDs[..i]
                    then Refreshed(old(Lookup(models, m)), clientID, oldProvider, provider, Times(oldIds, m),
                                   Times(newIds, m), InfoOf(newModels, m))
                    else old(Lookup(models, m))
      {
        var id := uniqueIDs[i];
        if id in models {
          RefreshOne(clientID, id, oldProvider, provider, newModels[id], CountIn(oldCounts, id), newCounts[id]);
        }
      }
    }

    method RefreshOne(clientID: string, id: string, oldProvider: string, provider: string, model: ModelInfo,
                      oldCount: nat, newCount: nat)
      requires id in models && newCount > 0
      modifies this`models
      ensures forall m :: Lookup(models, m) ==
                if m == id
                    then Refreshed(old(Lookup(models, m)), clientID, oldProvider, provider, oldCount, newCount, model)
                else old(Lookup(models, m))
    {
      var reg := models[id].(info := model);
      if provider != "" {
        reg := reg.(infoByProvider := reg.infoByProvider[provider := model]);
      }
      reg := reg.(quotaExceeded := reg.quotaExceeded - {clientID}, suspended := reg.suspended - {clientID});
      if oldProvider != provider && provider != "" && oldCount > 0 {
        var overlapCount := newCount;
        if oldCount < overlapCount {
          overlapCount := oldCount;
        }
        var count := if provider in reg.providers then reg.providers[provider] else 0;
        reg := reg.(providers := reg.providers[provider := count + overlapCount]);
      }
      models := models[id := reg];
    }

    method UnregisterModels(clientID: string, ids: seq<string>, provider: string, hasProvider: bool)
      requires hasProvider <==> provider != ""
      modifies this`models
      ensures forall m :: Lookup(models, m) == DropTimes(old(Lookup(models, m)), clientID, provider, Times(ids, m))
    {
      for i := 0 to |ids|
        invariant forall m ::
                  Lookup(models, m) == DropTimes(old(Lookup(models, m)), clientID, provider, Times(ids[..i], m))
      {
        forall m ensures Times(ids[..i + 1], m) == Times(ids[..i], m) + (if m == ids[i] then 1 else 0) {
          TimesTake(ids, i, m);
        }
        if ids[i] in models {
          UnregisterOne(clientID, ids[i], provider, hasProvider);
        }
      }
      assert ids[..|ids|] == ids;
    }

    method UnregisterOne(clientID: string, modelID: string, provider: string, hasProvider: bool)
      requires hasProvider <==> provider != ""
      requires modelID in models
      modifies this`models
      ensures forall m :: Lookup(models, m) ==
                if m == modelID then DropOne(old(Lookup(models, m)), clientID, provider) else old(Lookup(models, m))
    {
      var registration := models[modelID];
      registration := registration.(count := registration.count - 1,
                                    quotaExceeded := registration.quotaExceeded - {clientID},
                                    suspended := registration.suspended - {clientID});
      if hasProvider && provider in registration.providers {
        var count := registration.providers[provider];
        if count <= 1 {
          registration := registration.(providers := registration.providers - {provider},
                                        infoByProvider := registration.infoByProvider - {provider});
        } else {
          registration := registration.(providers := registration.providers[provider := count - 1]);
        }
      }
      if registration.count <= 0 {
        models := models - {modelID};
      } else {
        models := models[modelID := registration];
      }
    }

    method UnregisterClientInternal(clientID: string)
      requires "" !in clientProviders.Values && IndexCounts(models, clientModels, clientProviders)
      modifies this`models, this`clientModels, this`clientModelInfos, this`clientProviders
      ensures clientModels == old(clientModels) - {clientID}
      ensures clientProviders == old(clientProviders) - {clientID}
      ensures clientModelInfos ==
              if clientID in old(clientModels) then old(clientModelInfos) - {clientID} else old(clientModelInfos)
      ensures forall m :: Lookup(models, m) ==
                Step(old(models), old(clientModels), old(clientProviders), clientID, [], "", map[], m)
    {
      var hasProvider := clientID in clientProviders;
      if clientID !in clientModels {
        if hasProvider {
          clientProviders := clientProviders - {clientID};
        }
        return;
      }
      var provider := if hasProvider then clientProviders[clientID] else "";
      var ids := clientModels[clientID];
      forall m ensures Holds(Lookup(models, m), provider, Times(ids, m)) {
        TablesHold(Lookup(models, m), clientModels, clientProviders, clientID, m);
      }
      UnregisterModels(clientID, ids, provider, hasProvider);
      forall m ensures Lookup(models, m) ==
                Step(old(models), old(clientModels), old(clientProviders), clientID, [], "", map[], m) {
        DropIsStep(old(Lookup(models, m)), clientID, provider, Times(ids, m), InfoOf(map[], m));
      }
      clientModels := clientModels - {clientID};
      clientModelInfos := clientModelInfos - {clientID};
      if hasProvider {
        clientProviders := clientProviders - {clientID};
      }
    }

    method UnregisterClient(clientID: string, ghost now: int)
      requires Valid() && clock <= now
      modifies this
      ensures Valid() && clock == now
      ensures clientModels == old(clientModels) - {clientID}
      ensures clientProviders == old(clientProviders) - {clientID}
      ensures clientModelInfos == old(clientModelInfos) - {clientID}
      ensures forall m :: Lookup(models, m) ==
                Step(old(models), old(clientModels), old(clientProviders), clientID, [], "", map[], m)
    {
      UnregisterClientInternal(clientID);
      InvalidateCache();
      clock := now;
      StepKeepsCounts(old(models), old(clientModels), old(clientProviders), clientID, [], "", map[], models);
    }

    method MoveOutIfChanged(oldCounts: map<string, int>, newCounts: map<string, int>, oldProvider: string,
                            provider: string, ghost oldIds: seq<string>, ghost newIds: seq<string>)
      requires Counts(oldCounts, oldIds) && Counts(newCounts, newIds)
      modifies this`models
      ensures forall m :: Lookup(models, m) ==
                MovedOut(old(Lookup(models, m)), oldProvider, provider, Times(oldIds, m), Times(newIds, m))
    {
      var providerChanged := oldProvider != provider;
      if providerChanged && oldProvider != "" {
        MoveOutOldProvider(oldCounts, newCounts, oldProvider, provider, oldIds, newIds);
      }
    }

    method TrimAway(clientID: string, oldCounts: map<string, int>, newCounts: map<string, int>, oldProvider: string,
                    ghost oldIds: seq<string>, ghost newIds: seq<string>)
      requires Counts(oldCounts, oldIds) && Counts(newCounts, newIds)
      modifies this`models
      ensures forall m :: Lookup(models, m) ==
                Trimmed(old(Lookup(models, m)), clientID, oldProvider, Times(oldIds, m), Times(newIds, m))
    {
      ApplyRemovals(clientID, oldCounts, newCounts, oldProvider, oldIds, newIds);
      ApplyOverage(clientID, oldCounts, newCounts, oldProvider, oldIds, newIds);
    }

    // First what leaves: the old provider's share, removed models, overage.
    method CutBack(clientID: string, oldCounts: map<string, int>, newCounts: map<string, int>, oldProvider: string,
                   provider: string, ghost oldIds: seq<string>, ghost newIds: seq<string>)
      requires Counts(oldCounts, oldIds) && Counts(newCounts, newIds)
      modifies this`models
      ensures forall m :: Lookup(models, m) ==
                Trimmed(MovedOut(old(Lookup(models, m)), oldProvider, provider, Times(oldIds, m), Times(newIds, m)),
                        clientID, oldProvider, Times(oldIds, m), Times(newIds, m))
    {
      MoveOutIfChanged(oldCounts, newCounts, oldProvider, provider, oldIds, newIds);
      TrimAway(clientID, oldCounts, newCounts, oldProvider, oldIds, newIds);
    }

    // Then what arrives or stays.
    method TopUp(clientID: string, uniqueIDs: seq<string>, oldCounts: map<string, int>, newCounts: map<string, int>,
                 oldProvider: string, provider: string, newModels: map<string, ModelInfo>,
                 ghost oldIds: seq<string>, ghost newIds: seq<string>)
      requires Counts(oldCounts, oldIds) && Counts(newCounts, newIds) && newModels.Keys == newCounts.Keys
      requires "" !in newIds && forall m :: m in uniqueIDs <==> m in newIds
      requires Distinct(uniqueIDs)
      modifies this`models
      ensures forall m :: Lookup(models, m) ==
                var o, n, info := Times(oldIds, m), Times(newIds, m), InfoOf(newModels, m);
                Refreshed(Topped(old(Lookup(models, m)), provider, o, n, info), clientID, oldProvider, provider, o, n,
                          info)
    {
      ApplyAdditions(oldCounts, newCounts, provider, newModels, oldIds, newIds);
      RefreshMetadata(clientID, uniqueIDs, oldCounts, newCounts, oldProvider, provider, newModels, oldIds, newIds);
    }

    method ReconcileExisting(clientID: string, uniqueIDs: seq<string>, rawIDs: seq<string>, provider: string,
                             newModels: map<string, ModelInfo>, newCounts: map<string, int>)
      requires TablesOk(clientModels, clientProviders) && IndexCounts(models, clientModels, clientProviders)
      requires clientID in clientModels && "" !in rawIDs
      requires Counts(newCounts, rawIDs) && newModels.Keys == newCounts.Keys
      requires forall m :: m in uniqueIDs <==> m in rawIDs
      requires Distinct(uniqueIDs)
      modifies this`models
      ensures forall m :: Lookup(models, m) ==
                Step(old(models), clientModels, clientProviders, clientID, rawIDs, provider, newModels, m)
    {
      var oldModels := clientModels[clientID];
      var oldProvider := if clientID in clientProviders then clientProviders[clientID] else "";
      var oldCounts := CountIds(oldModels);
      CutBack(clientID, oldCounts, newCounts, oldProvider, provider, oldModels, rawIDs);
      TopUp(clientID, uniqueIDs, oldCounts, newCounts, oldProvider, provider, newModels, oldModels, rawIDs);
      forall m ensures Lookup(models, m) ==
                         Step(old(models), clientModels, clientProviders, clientID, rawIDs, provider, newModels, m) {
        PhasesAreStep(old(models), clientModels, clientProviders, clientID, rawIDs, provider, newModels, m);
      }
    }

    method AddAll(rawIDs: seq<string>, provider: string, newModels: map<string, ModelInfo>)
      requires "" !in rawIDs && (forall m :: m in rawIDs <==> m in newModels)
      modifies this`models
      ensures Added(models, old(models), provider, newModels, rawIDs)
    {
      ghost var was := models;
      for i := 0 to |rawIDs|
        invariant Added(models, was, provider, newModels, rawIDs[..i])
      {
        ghost var now := models;
        assert rawIDs[i] in rawIDs && rawIDs[..i + 1] == rawIDs[..i] + [rawIDs[i]];
        AddModelRegistration(rawIDs[i], provider, newModels[rawIDs[i]]);
        AddedNext(models, now, was, provider, newModels, rawIDs[..i], rawIDs[i]);
      }
      assert rawIDs[..|rawIDs|] == rawIDs;
    }

    method RegisterFresh(clientID: string, rawIDs: seq<string>, provider: string, newModels: map<string, ModelInfo>)
      requires TablesOk(clientModels, clientProviders) && IndexCounts(models, clientModels, clientProviders)
      requires clientID !in clientModels && "" !in rawIDs && (forall m :: m in rawIDs <==> m in newModels)
      modifies this`models
      ensures forall m :: Lookup(models, m) ==
                Step(old(models), clientModels, clientProviders, clientID, rawIDs, provider, newModels, m)
    {
      AddAll(rawIDs, provider, newModels);
      forall m ensures Lookup(models, m) ==
                Step(old(models), clientModels, clientProviders, clientID, rawIDs, provider, newModels, m) {
        TablesHold(old(Lookup(models, m)), clientModels, clientProviders, clientID, m);
        AddIsStep(old(Lookup(models, m)), clientID, provider, Times(rawIDs, m), InfoOf(newModels, m));
      }
    }

    // No models supplied: what is known of the client goes.
    method RegisterNothing(clientID: string)
      requires TablesOk(clientModels, clientProviders) && IndexCounts(models, clientModels, clientProviders)
      requires clientModelInfos.Keys == clientModels.Keys
      modifies this`models, this`clientModels, this`clientModelInfos, this`clientProviders, this`availableModelsCache
      ensures availableModelsCache == map[]
      ensures clientModels == old(clientModels) - {clientID}
      ensures clientProviders == old(clientProviders) - {clientID}
      ensures clientModelInfos == old(clientModelInfos) - {clientID}
      ensures forall m :: Lookup(models, m) ==
                Step(old(models), old(clientModels), old(clientProviders), clientID, [], "", map[], m)
    {
      UnregisterClientInternal(clientID);
      GoneAgain(old(clientModels), clientID);
      GoneAgain(old(clientModelInfos), clientID);
      GoneAgain(old(clientProviders), clientID);
      clientModels := clientModels - {clientID};
      clientModelInfos := clientModelInfos - {clientID};
      clientProviders := clientProviders - {clientID};
      InvalidateCache();
    }

    method RegisterSome(clientID: string, provider: string, uniqueIDs: seq<string>, rawIDs: seq<string>,
                        newModels: map<string, ModelInfo>, newCounts: map<string, int>)
      requires TablesOk(clientModels, clientProviders) && IndexCounts(models, clientModels, clientProviders)
      requires rawIDs != [] && "" !in rawIDs && Counts(newCounts, rawIDs)
      requires forall m :: m in rawIDs <==> m in newModels
      requires forall m :: m in uniqueIDs <==> m in rawIDs
      requires Distinct(uniqueIDs)
      modifies this`models, this`clientModels, this`clientModelInfos, this`clientProviders, this`availableModelsCache
      ensures availableModelsCache == map[]
      ensures clientModels == PutList(old(clientModels), clientID, rawIDs)
      ensures clientProviders == PutProvider(old(clientProviders), clientID, provider)
      ensures clientModelInfos == old(clientModelInfos)[clientID := newModels]
      ensures forall m :: Lookup(models, m) ==
                Step(old(models), old(clientModels), old(clientProviders), clientID, rawIDs, provider, newModels, m)
    {
      if clientID !in clientModels {
        RegisterFresh(clientID, rawIDs, provider, newModels);
      } else {
        assert newModels.Keys == newCounts.Keys;
        ReconcileExisting(clientID, uniqueIDs, rawIDs, provider, newModels, newCounts);
      }
      clientModels := clientModels[clientID := rawIDs];
      clientModelInfos := clientModelInfos[clientID := newModels];
      if provider != "" {
        clientProviders := clientProviders[clientID := provider];
      } else {
        clientProviders := clientProviders - {clientID};
      }
      InvalidateCache();
    }

    method RegisterModels(clientID: string, clientProvider: string, list: seq<Option<ModelInfo>>)
      requires TablesOk(clientModels, clientProviders) && IndexCounts(models, clientModels, clientProviders)
      requires clientModelInfos.Keys == clientModels.Keys
      modifies this`models, this`clientModels, this`clientModelInfos, this`clientProviders, this`availableModelsCache
      ensures availableModelsCache == map[]
      ensures clientModels == PutList(old(clientModels), clientID, RawIds(list))
      ensures clientProviders == PutProvider(old(clientProviders), clientID, ProviderFor(clientProvider, list))
      ensures clientModelInfos ==
                if RawIds(list) == [] then old(clientModelInfos) - {clientID}
                else old(clientModelInfos)[clientID := FirstInfos(list)]
      ensures forall m :: Lookup(models, m) ==
                Step(old(models), old(clientModels), old(clientProviders), clientID, RawIds(list),
                     ProviderFor(clientProvider, list), FirstInfos(list), m)
    {
      var provider := ToLower(clientProvider);
      var uniqueIDs, rawIDs, newModels, newCounts := CollectModels(list);
      NamesNotBlank(list);
      if |uniqueIDs| == 0 {
        assert newModels == map[];
        RegisterNothing(clientID);
      } else {
        RegisterSome(clientID, provider, uniqueIDs, rawIDs, newModels, newCounts);
      }
    }

    method RegisterClient(clientID: string, clientProvider: string, list: seq<Option<ModelInfo>>, ghost now: int)
      requires Valid() && clock <= now
      modifies this
      ensures Valid() && clock == now
      ensures clientModels == PutList(old(clientModels), clientID, RawIds(list))
      ensures clientProviders == PutProvider(old(clientProviders), clientID, ProviderFor(clientProvider, list))
      ensures clientModelInfos ==
                if RawIds(list) == [] then old(clientModelInfos) - {clientID}
                else old(clientModelInfos)[clientID := FirstInfos(list)]
      ensures forall m :: Lookup(models, m) ==
                Step(old(models), old(clientModels), old(clientProviders), clientID, RawIds(list),
                     ProviderFor(clientProvider, list), FirstInfos(list), m)
      ensures Recorded(clientModels, clientProviders, clientID, clientProvider, list)
      ensures InfosFiled(models, clientProvider, list)
    {
      RegisterModels(clientID, clientProvider, list);
      clock := now;
      PutIsRecorded(old(clientModels), old(clientProviders), clientID, clientProvider, list);
      StepFilesInfos(old(models), old(clientModels), old(clientProviders), clientID, clientProvider, list, models);
      TablesStay(old(clientModels), old(clientProviders), clientID, RawIds(list), ProviderFor(clientProvider, list));
      InfosStay(old(clientModelInfos), old(clientModels), clientID, RawIds(list), FirstInfos(list));
      StepKeepsCounts(old(models), old(clientModels), old(clientProviders), clientID, RawIds(list),
                      ProviderFor(clientProvider, list), FirstInfos(list), models);
    }

    // A change of one entry's marks leaves every count as it was.
    lemma MarksKeepCounts(was: Models, modelID: string, reg: Registration)
      requires IndexCounts(was, clientModels, clientProviders) && modelID in was
      requires reg == was[modelID].(quotaExceeded := reg.quotaExceeded, suspended := reg.suspended)
      ensures IndexCounts(was[modelID := reg], clientModels, clientProviders)
    {
      forall m ensures SlotCounts(Lookup(was[modelID := reg], m), Total(clientModels, m),
                                  Shares(clientModels, clientProviders, m)) {
        assert SlotCounts(Lookup(was, m), Total(clientModels, m), Shares(clientModels, clientProviders, m));
      }
    }

    // The client need not list the model: marks of non-owners are accepted.
    method SetModelQuotaExceeded(clientID: string, modelID: string, now: int)
      requires Valid() && clock <= now
      modifies this`models, this`availableModelsCache, this`clock
      ensures Valid() && clock == now
      ensures models ==
                if modelID in old(models)
                then var r := old(models)[modelID];
                  old(models)[modelID := r.(quotaExceeded := r.quotaExceeded[clientID := now])]
                else old(models)
    {
      clock := now;
      if modelID in models {
        var registration := models[modelID];
        registration := registration.(quotaExceeded := registration.quotaExceeded[clientID := now]);
        MarksKeepCounts(models, modelID, registration);
        models := models[modelID := registration];
        InvalidateCache();
      }
    }

    method ClearModelQuotaExceeded(clientID: string, modelID: string, ghost now: int)
      requires Valid() && clock <= now
      modifies this`models, this`availableModelsCache, this`clock
      ensures Valid() && clock == now
      ensures models ==
                if modelID in old(models)
                then var r := old(models)[modelID];
                  old(models)[modelID := r.(quotaExceeded := r.quotaExceeded - {clientID})]
                else old(models)
    {
      clock := now;
      if modelID in models {
        var registration := models[modelID];
        registration := registration.(quotaExceeded := registration.quotaExceeded - {clientID});
        MarksKeepCounts(models, modelID, registration);
        models := models[modelID := registration];
        InvalidateCache();
      }
    }

    // A suspension that is already there keeps its first reason.
    method SuspendClientModel(clientID: string, modelID: string, reason: string, ghost now: int)
      requires Valid() && clock <= now
      modifies this`models, this`availableModelsCache, this`clock
      ensures Valid() && clock == now
      ensures models ==
                if clientID != "" && modelID != "" && modelID in old(models)
                    && clientID !in old(models)[modelID].suspended
                then var r := old(models)[modelID];
                  old(models)[modelID := r.(suspended := r.suspended[clientID := reason])]
                else old(models)
    {
      clock := now;
      if clientID == "" || modelID == "" || modelID !in models {
        return;
      }
      var registration := models[modelID];
      if clientID in registration.suspended {
        return;
      }
      registration := registration.(suspended := registration.suspended[clientID := reason]);
      MarksKeepCounts(models, modelID, registration);
      models := models[modelID := registration];
      InvalidateCache();
    }

    method ResumeClientModel(clientID: string, modelID: string, ghost now: int)
      requires Valid() && clock <= now
      modifies this`models, this`availableModelsCache, this`clock
      ensures Valid() && clock == now
      ensures models ==
                if clientID != "" && modelID != "" && modelID in old(models)
                then var r := old(models)[modelID]; old(models)[modelID := r.(suspended := r.suspended - {clientID})]
                else old(models)
    {
      clock := now;
      if clientID == "" || modelID == "" || modelID !in models {
        return;
      }
      var registration := models[modelID];
      if clientID !in registration.suspended {
        assert registration.suspended - {clientID} == registration.suspended;
        return;
      }
      registration := registration.(suspended := registration.suspended - {clientID});
      MarksKeepCounts(models, modelID, registration);
      models := models[modelID := registration];
      InvalidateCache();
    }

    static method CleanOne(registration: Registration, now: int) returns (cleaned: Registration, changed: bool)
      ensures cleaned == Cleaned(registration, now)
      ensures !changed ==> cleaned == registration
    {
      cleaned, changed := registration, false;
      var todo := registration.quotaExceeded.Keys;
      while todo != {}
        invariant todo <= registration.quotaExceeded.Keys
        invariant cleaned == registration.(quotaExceeded := cleaned.quotaExceeded)
        invariant cleaned.quotaExceeded == map c | c in registration.quotaExceeded &&
                    (c in todo || now < registration.quotaExceeded[c] + QUOTA_WINDOW) :: registration.quotaExceeded[c]
        invariant !changed ==> cleaned == registration
      {
        var c :| c in todo;
        todo := todo - {c};
        if now - registration.quotaExceeded[c] >= QUOTA_WINDOW {
          cleaned := cleaned.(quotaExceeded := cleaned.quotaExceeded - {c});
          changed := true;
        }
      }
    }

    static lemma CleaningKeepsCounts(was: Models, now: int, lists: ClientLists, providers: map<string, string>)
      requires IndexCounts(was, lists, providers)
      ensures IndexCounts(map m | m in was :: Cleaned(was[m], now), lists, providers)
    {
      var cleaned := map m | m in was :: Cleaned(was[m], now);
      forall m ensures SlotCounts(Lookup(cleaned, m), Total(lists, m), Shares(lists, providers, m)) {
        assert SlotCounts(Lookup(was, m), Total(lists, m), Shares(lists, providers, m));
      }
    }

    method CleanAll(now: int) returns (invalidated: bool)
      modifies this`models
      ensures models == map m | m in old(models) :: Cleaned(old(models)[m], now)
      ensures !invalidated ==> models == old(models)
    {
      invalidated := false;
      var todo := models.Keys;
      while todo != {}
        invariant models.Keys == old(models).Keys && todo <= models.Keys
        invariant forall m :: m in models ==>
                    models[m] == if m in todo then old(models)[m] else Cleaned(old(models)[m], now)
        invariant !invalidated ==> models == old(models)
      {
        var m :| m in todo;
        todo := todo - {m};
        var cleaned, changed := CleanOne(models[m], now);
        if changed {
          models := models[m := cleaned];
          invalidated := true;
        }
      }
    }

    method CleanupExpiredQuotas(now: int)
      requires Valid() && clock <= now
      modifies this`models, this`availableModelsCache, this`clock
      ensures Valid() && clock == now
      ensures models == map m | m in old(models) :: Cleaned(old(models)[m], now)
    {
      clock := now;
      CleaningKeepsCounts(models, now, clientModels, clientProviders);
      var invalidated := CleanAll(now);
      if invalidated {
        InvalidateCache();
      }
    }

    // The cooldowns of one entry still running, and the least recovery time seen so far.
    static method ScanCooldowns(quota: map<string, int>, now: int, seen: Option<int>)
      returns (expired: nat, expiresAt: Option<int>)
      ensures expired == |ActiveMarks(quota, now)|
      ensures seen.Some? ==> expiresAt.Some? && expiresAt.value <= seen.value
      ensures forall c :: c in ActiveMarks(quota, now) ==> expiresAt.Some? && expiresAt.value <= quota[c] + QUOTA_WINDOW
      ensures expiresAt != seen ==> expiresAt.Some? && Recovers(quota, now, expiresAt.value)
    {
      expired, expiresAt := 0, seen;
      var todo := quota.Keys;
      ghost var active: set<string> := {};
      while todo != {}
        invariant todo <= quota.Keys
        invariant active == set c | c in ActiveMarks(quota, now) && c !in todo
        invariant expired == |active|
        invariant seen.Some? ==> expiresAt.Some? && expiresAt.value <= seen.value
        invariant forall c :: c in active ==> expiresAt.Some? && expiresAt.value <= quota[c] + QUOTA_WINDOW
        invariant expiresAt != seen ==> expiresAt.Some? && Recovers(quota, now, expiresAt.value)
        decreases todo
      {
        var c :| c in todo;
        todo := todo - {c};
        var recoveryAt := quota[c] + QUOTA_WINDOW;
        if now < recoveryAt {
          active := active + {c};
          expired := expired + 1;
          if expiresAt.None? || recoveryAt < expiresAt.value {
            expiresAt := Some(recoveryAt);
          }
        }
      }
      assert active == ActiveMarks(quota, now);
    }

    static method CountSuspended(suspended: map<string, string>) returns (cooldown: nat, other: nat)
      ensures cooldown == |CooldownSuspended(suspended)| && other == |OtherSuspended(suspended)|
    {
      cooldown, other := 0, 0;
      var todo := suspended.Keys;
      SeenBounds(suspended);
      while todo != {}
        invariant todo <= suspended.Keys
        invariant cooldown == CoolingSeen(suspended, todo) && other == OthersSeen(suspended, todo)
        decreases todo
      {
        var c :| c in todo;
        SeenOneMore(suspended, todo, c);
        todo := todo - {c};
        if EqualFold(suspended[c], QUOTA_REASON) {
          cooldown := cooldown + 1;
          continue;
        }
        other := other + 1;
      }
    }

    // One round of the loop over the entries.
    static method Examine(registration: Registration, now: int, seen: Option<int>)
      returns (listed: bool, expiresAt: Option<int>)
      ensures listed <==> Available(registration, now)
      ensures seen.Some? ==> expiresAt.Some? && expiresAt.value <= seen.value
      ensures forall c :: c in ActiveMarks(registration.quotaExceeded, now) ==>
                expiresAt.Some? && expiresAt.value <= registration.quotaExceeded[c] + QUOTA_WINDOW
      ensures expiresAt != seen ==> expiresAt.Some? && Recovers(registration.quotaExceeded, now, expiresAt.value)
    {
      var availableClients, expiredClients := registration.count, 0;
      expiredClients, expiresAt := ScanCooldowns(registration.quotaExceeded, now, seen);
      var cooldownSuspended, otherSuspended := CountSuspended(registration.suspended);
      var effectiveClients := availableClients - expiredClients - otherSuspended;
      if effectiveClients < 0 {
        effectiveClients := 0;
      }
      listed := effectiveClients > 0 ||
        (availableClients > 0 && (expiredClients > 0 || cooldownSuspended > 0) && otherSuspended == 0);
    }

    static lemma ExaminedLeast(all: Models, now: int, m: string, seen: Option<int>, expiresAt: Option<int>,
                               done: set<string>)
      requires m in all && m !in done
      requires seen.Some? ==> expiresAt.Some? && expiresAt.value <= seen.value
      requires forall c :: c in ActiveMarks(all[m].quotaExceeded, now) ==>
                 expiresAt.Some? && expiresAt.value <= all[m].quotaExceeded[c] + QUOTA_WINDOW
      requires expiresAt != seen ==> expiresAt.Some? && Recovers(all[m].quotaExceeded, now, expiresAt.value)
      requires LeastAmong(all, done, now, seen)
      ensures LeastAmong(all, done + {m}, now, expiresAt)
    {
      if expiresAt != seen {
        var c :| c in ActiveMarks(all[m].quotaExceeded, now)
            && expiresAt.value == all[m].quotaExceeded[c] + QUOTA_WINDOW;
        assert Ends(all, now, m, c, expiresAt.value);
      }
    }

    ghost static predicate LeastAmong(all: Models, done: set<string>, now: int, expiresAt: Option<int>) {
      && (forall m, c, end :: m in done && Ends(all, now, m, c, end) ==> expiresAt.Some? && expiresAt.value <= end)
      && (expiresAt.Some? ==> exists m, c :: Ends(all, now, m, c, expiresAt.value))
    }

    static lemma ListOneMore(all: Models, now: int, handler: string, done: set<string>, m: string)
      requires m in all && m !in done
      ensures Listing(all, AvailableIds(all, now) * (done + {m}), handler) ==
              Listing(all, AvailableIds(all, now) * done, handler)
              + (if Available(all[m], now) then multiset{ModelView(all[m].info, handler)} else multiset{})
    {
      var listed := AvailableIds(all, now);
      if m in listed {
        ListingPick(all, listed * (done + {m}), m, handler);
        assert listed * (done + {m}) - {m} == listed * done;
      } else {
        assert listed * (done + {m}) == listed * done;
      }
    }

    // One round of the loop over the models.
    method ExamineOne(m: string, handlerType: string, now: int, result: seq<ModelView>, expiresAt: Option<int>,
                      ghost done: set<string>) returns (result': seq<ModelView>, expiresAt': Option<int>)
      requires m in models && m !in done
      requires multiset(result) == Listing(models, AvailableIds(models, now) * done, handlerType)
      requires LeastAmong(models, done, now, expiresAt)
      ensures multiset(result') == Listing(models, AvailableIds(models, now) * (done + {m}), handlerType)
      ensures LeastAmong(models, done + {m}, now, expiresAt')
    {
      var listed;
      listed, expiresAt' := Examine(models[m], now, expiresAt);
      ExaminedLeast(models, now, m, expiresAt, expiresAt', done);
      ListOneMore(models, now, handlerType, done, m);
      result' := if listed then result + [ModelView(models[m].info, handlerType)] else result;
    }

    method BuildAvailableModels(handlerType: string, now: int) returns (result: seq<ModelView>, expiresAt: Option<int>)
      ensures multiset(result) == AnswerAt(models, handlerType, now)
      ensures LeastRecovery(models, now, expiresAt)
    {
      result, expiresAt := [], None;
      var todo := models.Keys;
      ghost var done := {};
      while todo != {}
        invariant todo + done == models.Keys && todo !! done
        invariant multiset(result) == Listing(models, AvailableIds(models, now) * done, handlerType)
        invariant LeastAmong(models, done, now, expiresAt)
        decreases todo
      {
        var m :| m in todo;
        result, expiresAt := ExamineOne(m, handlerType, now, result, expiresAt, done);
        todo, done := todo - {m}, done + {m};
      }
      assert AvailableIds(models, now) * done == AvailableIds(models, now);
    }

    // The look at the cache under the read lock. now was read before the lock was taken.
    method LookCached(handlerType: string, now: int) returns (hit: bool, result: seq<ModelView>)
      requires Valid()
      ensures hit ==> RightWithin(result, models, handlerType, now, Later(clock, now))
    {
      if handlerType in availableModelsCache && Fresh(availableModelsCache[handlerType], now) {
        CachedIsRight(availableModelsCache, models, clock, handlerType, now);
        return true, availableModelsCache[handlerType].models;
      }
      return false, [];
    }

    // The second look, under the write lock, and the rebuild; anything may have happened since the first.
    method LookAgainOrBuild(handlerType: string, now: int) returns (result: seq<ModelView>)
      requires Valid()
      modifies this`availableModelsCache, this`clock
      ensures Valid() && clock == Later(old(clock), now)
      ensures RightWithin(result, models, handlerType, now, clock)
    {
      CoherentLater(availableModelsCache, models, clock, Later(clock, now));
      clock := Later(clock, now);
      if handlerType in availableModelsCache && Fresh(availableModelsCache[handlerType], now) {
        CachedIsRight(availableModelsCache, models, clock, handlerType, now);
        return availableModelsCache[handlerType].models;
      }
      result := Rebuild(handlerType, now);
      RightAt(result, models, handlerType, now, clock);
    }

    method Rebuild(handlerType: string, now: int) returns (result: seq<ModelView>)
      requires CacheCoherent(availableModelsCache, models, clock) && now <= clock
      modifies this`availableModelsCache
      ensures CacheCoherent(availableModelsCache, models, clock)
      ensures multiset(result) == AnswerAt(models, handlerType, now)
    {
      var expiresAt;
      result, expiresAt := BuildAvailableModels(handlerType, now);
      BuiltIsRight(result, models, handlerType, now, expiresAt);
      CoherentWith(availableModelsCache, models, clock, handlerType, CacheEntry(result, expiresAt), now);
      availableModelsCache := availableModelsCache[handlerType := CacheEntry(result, expiresAt)];
    }

    // Whatever the cache holds and however late the locks are granted, the answer was right at some
    // instant since the clock was read: without any delay, at this very instant.
    method GetAvailableModels(handlerType: string, now: int) returns (result: seq<ModelView>)
      requires Valid()
      modifies this`availableModelsCache, this`clock
      ensures Valid() && RightWithin(result, models, handlerType, now, Later(old(clock), now))
    {
      var hit;
      hit, result := LookCached(handlerType, now);
      if !hit {
        result := LookAgainOrBuild(handlerType, now);
      }
    }

    method GetModelCount(modelID: string, now: int) returns (count: int)
      ensures count == ModelCount(Lookup(models, modelID), now)
      ensures modelID !in models ==> count == 0
    {
      if modelID in models {
        var registration := models[modelID];
        var expiredClients, _ := ScanCooldowns(registration.quotaExceeded, now, None);
        var left := registration.count - expiredClients - |registration.suspended|;
        if left < 0 {
          return 0;
        }
        return left;
      }
      return 0;
    }

    // The models of one provider, each once, with an info one of its clients or the index has; ids
    // names them.
    method GetAvailableModelsByProvider(provider: string, now: int) returns (result: seq<ModelInfo>, ids: seq<string>)
      requires Valid()
      ensures |ids| == |result| && forall j, k :: 0 <= j < k < |ids| ==> ids[j] != ids[k]
      ensures var p := ToLower(Trim(provider));
              && (forall m :: m in ids <==>
                  p != "" && PL.Listed(models, clientModels, clientModelInfos, clientProviders, p, m, now))
              && forall k :: 0 <= k < |ids| ==>
                PL.InfoFor(models, clientModels, clientModelInfos, clientProviders, p, ids[k], result[k])
    {
      result, ids := PL.ListProvider(models, clientModels, clientModelInfos, clientProviders, provider, now);
    }

    // The providers whose clients list the model, those with more listings first.
    method GetModelProviders(modelID: string) returns (result: seq<string>)
      requires Valid()
      ensures RanksProviders(result, Shares(clientModels, clientProviders, modelID))
      ensures forall p :: p in result <==> Share(clientModels, clientProviders, modelID, p) > 0
      ensures MostFirst(result, clientModels, clientProviders, modelID)
    {
      ghost var shares := Shares(clientModels, clientProviders, modelID);
      ShareIsThere(clientModels, clientProviders, modelID);
      assert SlotCounts(Lookup(models, modelID), Total(clientModels, modelID), shares);
      if modelID !in models || |models[modelID].providers| == 0 {
        return [];
      }
      var counts := models[modelID].providers;
      var providers := PositiveCounts(counts);
      result := Names(Sort(providers));
      RankedNames(counts, providers, result);
    }

    static method Names(ranked: seq<ProviderCount>) returns (names: seq<string>)
      ensures |names| == |ranked| && forall k :: 0 <= k < |names| ==> names[k] == ranked[k].name
    {
      names := [];
      for i := 0 to |ranked|
        invariant |names| == i && forall k :: 0 <= k < i ==> names[k] == ranked[k].name
      {
        names := names + [ranked[i].name];
      }
    }

    static method PositiveCounts(counts: map<string, int>) returns (providers: seq<ProviderCount>)
      ensures NoRepeats(providers)
      ensures forall x: ProviderCount :: x in providers <==>
              x.name in counts && counts[x.name] == x.count && x.count > 0
    {
      providers := [];
      var todo := counts.Keys;
      while todo != {}
        invariant todo <= counts.Keys && NoRepeats(providers)
        invariant forall x: ProviderCount :: x in providers <==>
                    x.name in counts && x.name !in todo && counts[x.name] == x.count && x.count > 0
      {
        var name :| name in todo;
        todo := todo - {name};
        if counts[name] <= 0 {
          continue;
        }
        providers := providers + [ProviderCount(name, counts[name])];
      }
    }

    // Just the providers with a share, by share and then by name.
    ghost static predicate RanksProviders(names: seq<string>, shares: map<string, int>) {
      && (forall p :: p in names <==> p in shares)
      && forall i, j :: 0 <= i < j < |names| ==>
           Before(ProviderCount(names[i], shares[names[i]]), ProviderCount(names[j], shares[names[j]]))
    }

    // Who lists the model more often comes first; of two who do so equally often the first by name.
    ghost static predicate MostFirst(names: seq<string>, lists: ClientLists, providers: map<string, string>, m: string)
    {
      forall i, j :: 0 <= i < j < |names| ==>
        var a, b := Share(lists, providers, m, names[i]), Share(lists, providers, m, names[j]);
        a > b || (a == b && Less(names[i], names[j]))
    }

    static lemma ShareIsThere(lists: ClientLists, providers: map<string, string>, m: string)
      ensures forall p :: p in Shares(lists, providers, m) <==> Share(lists, providers, m, p) > 0
    {
      forall p ensures p in Shares(lists, providers, m) <==> Share(lists, providers, m, p) > 0 {
        SharesHas(lists, providers, m, p);
      }
    }

    static lemma RankedNames(counts: map<string, int>, providers: seq<ProviderCount>, names: seq<string>)
      requires forall x: ProviderCount :: x in providers <==>
               x.name in counts && counts[x.name] == x.count && x.count > 0
      requires forall p :: p in counts ==> counts[p] > 0
      requires |names| == |Sort(providers)| && forall k :: 0 <= k < |names| ==> names[k] == Sort(providers)[k].name
      requires NoRepeats(providers)
      ensures RanksProviders(names, counts)
    {
      SortRanks(providers);
      var ranked := Sort(providers);
      forall k | 0 <= k < |names| ensures names[k] in counts && ranked[k] == ProviderCount(names[k], counts[names[k]]) {
        SortMembers(providers, ranked[k]);
      }
      forall p | p in counts ensures p in names {
        SortMembers(providers, ProviderCount(p, counts[p]));
        var k :| 0 <= k < |ranked| && ranked[k] == ProviderCount(p, counts[p]);
        assert names[k] == p;
      }
    }
  }
}
