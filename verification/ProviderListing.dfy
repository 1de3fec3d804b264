/** The models one provider offers: its clients' listings counted under the trimmed identifiers, less
    the marks of its own clients. */
module ProviderListing {
  import opened Text
  import opened RegistryModel

  function Trims(ids: seq<string>): (r: seq<string>)
    ensures |r| == |ids| && forall i :: 0 <= i < |ids| ==> r[i] == Trim(ids[i])
  {
    seq(|ids|, i requires 0 <= i < |ids| => Trim(ids[i]))
  }

  function TrimAll(lists: ClientLists): ClientLists {
    map c | c in lists :: Trims(lists[c])
  }

  // How often the provider's clients list a model, by trimmed identifier.
  ghost function Offers(lists: ClientLists, providers: map<string, string>, p: string, m: string): nat {
    Total(TrimAll(Owned(lists, providers, p)), m)
  }

  function ClientsOf(providers: map<string, string>, p: string): set<string> {
    set c | c in providers && providers[c] == p && c != ""
  }

  // The availability rule with the marks of these clients only.
  predicate AvailableFor(count: int, slot: Slot, clients: set<string>, now: int) {
    var expired := if slot.Some? then |ActiveMarks(slot.value.quotaExceeded, now) * clients| else 0;
    var cooling := if slot.Some? then |CooldownSuspended(slot.value.suspended) * clients| else 0;
    var other := if slot.Some? then |OtherSuspended(slot.value.suspended) * clients| else 0;
    count - expired - other > 0 || (count > 0 && (expired > 0 || cooling > 0) && other == 0)
  }

  // A model the provider's clients list at all is offered if none of them is suspended for another reason
  // than quota, or if they list it more often than they have marks of the two kinds; a mark is one
  // less than five minutes old.
  lemma OfferedWhen(count: int, r: Registration, clients: set<string>, now: int)
    ensures var resting := set c | c in clients && c in r.quotaExceeded && now - r.quotaExceeded[c] < 300;
            var barred := set c | c in clients && c in r.suspended && ToLower(r.suspended[c]) != "quota";
            AvailableFor(count, Some(r), clients, now) <==>
            count > 0 && (barred == {} || count > |resting| + |barred|)
    ensures AvailableFor(count, None, clients, now) <==> count > 0
  {
    assert ToLower("quota") == "quota";
    assert ActiveMarks(r.quotaExceeded, now) * clients
           == set c | c in clients && c in r.quotaExceeded && now - r.quotaExceeded[c] < 300;
    assert OtherSuspended(r.suspended) * clients
           == set c | c in clients && c in r.suspended && ToLower(r.suspended[c]) != "quota";
  }

  // Where the info of a listed model may come from.
  ghost predicate InfoFor(models: map<string, Registration>, lists: ClientLists,
                          infos: map<string, map<string, ModelInfo>>,
                          providers: map<string, string>, p: string, m: string, info: ModelInfo)
  {
    || (m in models && models[m].info == info)
    || exists c ::
      c in Owned(lists, providers, p) && m in Trims(lists[c]) && c in infos && m in infos[c] && infos[c][m] == info
  }

  // ----- Counting -----

  // Of each model seen so far: how often, and the first info met.
  datatype Offer = Offer(count: nat, info: Option<ModelInfo>)

  function CountOf(offers: map<string, Offer>, m: string): nat {
    if m in offers then offers[m].count else 0
  }

  function InfoAt(models: map<string, Registration>, infos: map<string, ModelInfo>, m: string): Option<ModelInfo> {
    if m in infos then Some(infos[m]) else if m in models then Some(models[m].info) else None
  }

  // The first info met stays.
  function InfoAfter(offers: map<string, Offer>, m: string, info: Option<ModelInfo>): Option<ModelInfo> {
    if m in offers && offers[m].info.Some? then offers[m].info else info
  }

  // One client's list on top of the offers so far.
  ghost predicate CountedAt(models: map<string, Registration>, ids: seq<string>, infos: map<string, ModelInfo>,
                            offers: map<string, Offer>, now: map<string, Offer>, m: string)
  {
    var listed := m != "" && m in ids;
    && (m in now <==> m in offers || listed)
    && (m in now ==> now[m].count == CountOf(offers, m) + (if m == "" then 0 else Times(ids, m)))
    && (m in now ==> now[m].info == if listed then InfoAfter(offers, m, InfoAt(models, infos, m)) else offers[m].info)
  }

  ghost predicate Counted(models: map<string, Registration>, ids: seq<string>, infos: map<string, ModelInfo>,
                          offers: map<string, Offer>, now: map<string, Offer>)
  {
    forall m :: CountedAt(models, ids, infos, offers, now, m)
  }

  function Once(models: map<string, Registration>, infos: map<string, ModelInfo>, now: map<string, Offer>,
                m: string): map<string, Offer> {
    if m == "" then now
    else now[m := Offer(CountOf(now, m) + 1, InfoAfter(now, m, InfoAt(models, infos, m)))]
  }

  lemma CountedStepAt(models: map<string, Registration>, ids: seq<string>, infos: map<string, ModelInfo>,
                      offers: map<string, Offer>, now: map<string, Offer>, i: nat, m: string)
    requires i < |ids| && CountedAt(models, ids[..i], infos, offers, now, m)
    ensures CountedAt(models, ids[..i + 1], infos, offers, Once(models, infos, now, ids[i]), m)
  {
    TimesTake(ids, i, m);
    assert m in ids[..i + 1] <==> m in ids[..i] || m == ids[i];
  }

  lemma CountedStep(models: map<string, Registration>, ids: seq<string>, infos: map<string, ModelInfo>,
                    offers: map<string, Offer>, now: map<string, Offer>, i: nat)
    requires i < |ids| && Counted(models, ids[..i], infos, offers, now)
    ensures Counted(models, ids[..i + 1], infos, offers, Once(models, infos, now, ids[i]))
  {
    var more, next := ids[..i + 1], Once(models, infos, now, ids[i]);
    forall m ensures CountedAt(models, more, infos, offers, next, m) {
      assert CountedAt(models, ids[..i], infos, offers, now, m);
      CountedStepAt(models, ids, infos, offers, now, i, m);
    }
  }

  method CountClient(models: map<string, Registration>, modelIDs: seq<string>, clientInfos: map<string, ModelInfo>,
                     offers: map<string, Offer>) returns (now: map<string, Offer>)
    ensures Counted(models, Trims(modelIDs), clientInfos, offers, now)
  {
    now := offers;
    ghost var ids := Trims(modelIDs);
    for i := 0 to |modelIDs|
      invariant Counted(models, ids[..i], clientInfos, offers, now)
    {
      CountedStep(models, ids, clientInfos, offers, now, i);
      var modelID := Trim(modelIDs[i]);
      if modelID == "" {
        continue;
      }
      var info := InfoAfter(now, modelID, InfoAt(models, clientInfos, modelID));
      now := now[modelID := Offer(CountOf(now, modelID) + 1, info)];
    }
    assert ids[..|modelIDs|] == ids;
  }

  // What is known of one model after the clients in done: counted exactly, with an info wherever
  // there is one to be had.
  ghost predicate CollectedAt(models: map<string, Registration>, infos: map<string, map<string, ModelInfo>>,
                              done: ClientLists, offers: map<string, Offer>, m: string)
  {
    && CountOf(offers, m) == (if m == "" then 0 else Total(done, m))
    && (m in offers ==> offers[m].count > 0)
    && (m in offers ==> match offers[m].info
                        case Some(info) => (m in models && models[m].info == info) || NamedBy(infos, done, m, info)
                        case None => m !in models && Unknown(infos, done, m))
  }

  ghost predicate NamedBy(infos: map<string, map<string, ModelInfo>>, done: ClientLists, m: string, info: ModelInfo) {
    exists c :: c in done && m in done[c] && c in infos && m in infos[c] && infos[c][m] == info
  }

  ghost predicate Unknown(infos: map<string, map<string, ModelInfo>>, done: ClientLists, m: string) {
    forall c :: c in done && m in done[c] && c in infos ==> m !in infos[c]
  }

  ghost predicate Collected(models: map<string, Registration>, infos: map<string, map<string, ModelInfo>>,
                            done: ClientLists, offers: map<string, Offer>)
  {
    forall m :: CollectedAt(models, infos, done, offers, m)
  }

  lemma NamedMore(infos: map<string, map<string, ModelInfo>>, done: ClientLists, c: string, ids: seq<string>, m: string,
                  info: ModelInfo)
    requires NamedBy(infos, done, m, info) && c !in done
    ensures NamedBy(infos, done[c := ids], m, info)
  {
    var d :| d in done && m in done[d] && d in infos && m in infos[d] && infos[d][m] == info;
    assert d in done[c := ids] && done[c := ids][d] == done[d];
  }

  lemma NotSeen(done: ClientLists, m: string)
    requires Total(done, m) == 0
    ensures forall c :: c in done ==> m !in done[c]
  {
    TotalPositive(done, m);
  }

  lemma CountMore(done: ClientLists, c: string, ids: seq<string>, m: string)
    requires c !in done
    ensures Total(done[c := ids], m) == Total(done, m) + Times(ids, m)
  {
    TotalPick(done[c := ids], c, m);
    assert done[c := ids] - {c} == done;
  }

  lemma CollectedMoreAt(models: map<string, Registration>, infos: map<string, map<string, ModelInfo>>,
                        done: ClientLists, c: string, ids: seq<string>, offers: map<string, Offer>,
                        now: map<string, Offer>, m: string)
    requires CollectedAt(models, infos, done, offers, m) && c !in done && c in infos
    requires CountedAt(models, ids, infos[c], offers, now, m)
    ensures CollectedAt(models, infos, done[c := ids], now, m)
  {
    CountMore(done, c, ids, m);
    var more := done[c := ids];
    if m in now {
      if m !in offers {
        NotSeen(done, m);
      }
      if now[m].info.Some? {
        if m in offers && offers[m].info.Some? {
          if NamedBy(infos, done, m, now[m].info.value) {
            NamedMore(infos, done, c, ids, m, now[m].info.value);
          }
        } else if m in infos[c] {
          assert c in more && more[c] == ids;
        }
      }
    }
  }

  lemma CollectedMore(models: map<string, Registration>, infos: map<string, map<string, ModelInfo>>,
                      done: ClientLists, c: string, ids: seq<string>, offers: map<string, Offer>,
                      now: map<string, Offer>)
    requires Collected(models, infos, done, offers) && c !in done && c in infos
    requires Counted(models, ids, infos[c], offers, now)
    ensures Collected(models, infos, done[c := ids], now)
  {
    var more := done[c := ids];
    forall m ensures CollectedAt(models, infos, more, now, m) {
      assert CollectedAt(models, infos, done, offers, m) && CountedAt(models, ids, infos[c], offers, now, m);
      CollectedMoreAt(models, infos, done, c, ids, offers, now, m);
    }
  }

  ghost function Without(all: ClientLists, todo: set<string>): ClientLists {
    map c | c in all && c !in todo :: all[c]
  }

  lemma WithoutLess(all: ClientLists, todo: set<string>, c: string)
    requires c in todo
    ensures Without(all, todo - {c}) == if c in all then Without(all, todo)[c := all[c]] else Without(all, todo)
  {
  }

  method CollectOffers(models: map<string, Registration>, clientModels: ClientLists,
                       infos: map<string, map<string, ModelInfo>>,
                       clientProviders: map<string, string>, provider: string) returns (offers: map<string, Offer>)
    requires clientProviders.Keys <= clientModels.Keys && infos.Keys == clientModels.Keys
    ensures Collected(models, infos, TrimAll(Owned(clientModels, clientProviders, provider)), offers)
  {
    offers := map[];
    var todo := clientProviders.Keys;
    ghost var all := TrimAll(Owned(clientModels, clientProviders, provider));
    assert Without(all, todo) == map[];
    while todo != {}
      invariant todo <= clientProviders.Keys && Collected(models, infos, Without(all, todo), offers)
      decreases todo
    {
      var c :| c in todo;
      WithoutLess(all, todo, c);
      if clientProviders[c] == provider {
        var counted := CountClient(models, clientModels[c], infos[c], offers);
        CollectedMore(models, infos, Without(all, todo), c, Trims(clientModels[c]), offers, counted);
        offers := counted;
      }
      todo := todo - {c};
    }
    assert Without(all, todo) == all;
  }

  // ----- Counting the marks -----

  lemma OneFewer(all: set<string>, todo: set<string>, c: string)
    requires c in todo
    ensures |all - (todo - {c})| == |all - todo| + (if c in all then 1 else 0)
  {
    assert all - (todo - {c}) == (all - todo) + (if c in all then {c} else {});
  }

  lemma Bounds(all: set<string>, todo: set<string>)
    requires all <= todo
    ensures |all - todo| == 0 && |all - {}| == |all|
  {
    assert all - todo == {} && all - {} == all;
  }

  method CountActive(quota: map<string, int>, clientProviders: map<string, string>, provider: string, now: int)
    returns (expired: nat)
    ensures expired == |ActiveMarks(quota, now) * ClientsOf(clientProviders, provider)|
  {
    expired := 0;
    var todo := quota.Keys;
    ghost var all := ActiveMarks(quota, now) * ClientsOf(clientProviders, provider);
    Bounds(all, todo);
    while todo != {}
      invariant todo <= quota.Keys && expired == |all - todo|
      decreases todo
    {
      var c :| c in todo;
      OneFewer(all, todo, c);
      todo := todo - {c};
      if c == "" {
        continue;
      }
      if c !in clientProviders || clientProviders[c] != provider {
        continue;
      }
      if now - quota[c] < QUOTA_WINDOW {
        expired := expired + 1;
      }
    }
  }

  // The suspensions looked at: those of the provider's clients that are cooldowns, and the others.
  ghost function CoolingSeen(suspended: map<string, string>, providers: map<string, string>, p: string,
                             todo: set<string>): nat {
    |CooldownSuspended(suspended) * ClientsOf(providers, p) - todo|
  }

  ghost function OthersSeen(suspended: map<string, string>, providers: map<string, string>, p: string,
                            todo: set<string>): nat {
    |OtherSuspended(suspended) * ClientsOf(providers, p) - todo|
  }

  lemma OneReason(suspended: map<string, string>, providers: map<string, string>, p: string, todo: set<string>,
                  c: string)
    requires c in todo && todo <= suspended.Keys
    ensures var mine, isQuota := c != "" && c in providers && providers[c] == p, EqualFold(suspended[c], QUOTA_REASON);
            && CoolingSeen(suspended, providers, p, todo - {c})
               == CoolingSeen(suspended, providers, p, todo) + (if mine && isQuota then 1 else 0)
            && OthersSeen(suspended, providers, p, todo - {c})
               == OthersSeen(suspended, providers, p, todo) + (if mine && !isQuota then 1 else 0)
  {
    OneFewer(CooldownSuspended(suspended) * ClientsOf(providers, p), todo, c);
    OneFewer(OtherSuspended(suspended) * ClientsOf(providers, p), todo, c);
  }

  lemma ReasonsBounds(suspended: map<string, string>, providers: map<string, string>, p: string)
    ensures CoolingSeen(suspended, providers, p, suspended.Keys) == 0
            && OthersSeen(suspended, providers, p, suspended.Keys) == 0
    ensures CoolingSeen(suspended, providers, p, {}) == |CooldownSuspended(suspended) * ClientsOf(providers, p)|
    ensures OthersSeen(suspended, providers, p, {}) == |OtherSuspended(suspended) * ClientsOf(providers, p)|
  {
    Bounds(CooldownSuspended(suspended) * ClientsOf(providers, p), suspended.Keys);
    Bounds(OtherSuspended(suspended) * ClientsOf(providers, p), suspended.Keys);
  }

  method CountReasons(suspended: map<string, string>, clientProviders: map<string, string>, provider: string)
    returns (cooling: nat, other: nat)
    ensures cooling == |CooldownSuspended(suspended) * ClientsOf(clientProviders, provider)|
    ensures other == |OtherSuspended(suspended) * ClientsOf(clientProviders, provider)|
  {
    cooling, other := 0, 0;
    var todo := suspended.Keys;
    ReasonsBounds(suspended, clientProviders, provider);
    while todo != {}
      invariant todo <= suspended.Keys
      invariant cooling == CoolingSeen(suspended, clientProviders, provider, todo)
      invariant other == OthersSeen(suspended, clientProviders, provider, todo)
      decreases todo
    {
      var c :| c in todo;
      OneReason(suspended, clientProviders, provider, todo, c);
      todo := todo - {c};
      if c == "" {
        continue;
      }
      if c !in clientProviders || clientProviders[c] != provider {
        continue;
      }
      if EqualFold(suspended[c], QUOTA_REASON) {
        cooling := cooling + 1;
        continue;
      }
      other := other + 1;
    }
  }

  method IsAvailableFor(count: int, slot: Slot, clientProviders: map<string, string>, provider: string, now: int)
    returns (available: bool)
    ensures available <==> AvailableFor(count, slot, ClientsOf(clientProviders, provider), now)
  {
    var expired, cooling, other := 0, 0, 0;
    if slot.Some? {
      expired := CountActive(slot.value.quotaExceeded, clientProviders, provider, now);
      cooling, other := CountReasons(slot.value.suspended, clientProviders, provider);
    }
    var effective := count - expired - other;
    if effective < 0 {
      effective := 0;
    }
    available := effective > 0 || (count > 0 && (expired > 0 || cooling > 0) && other == 0);
  }

  // ----- The listing -----

  // The model is offered by the provider, available to it, and something is known about it.
  ghost predicate Listed(models: map<string, Registration>, lists: ClientLists,
                         infos: map<string, map<string, ModelInfo>>,
                         providers: map<string, string>, p: string, m: string, now: int)
  {
    && m != "" && Offers(lists, providers, p, m) > 0
    && AvailableFor(Offers(lists, providers, p, m), Lookup(models, m), ClientsOf(providers, p), now)
    && exists info :: InfoFor(models, lists, infos, providers, p, m, info)
  }

  // By whose marks: those of the clients filed under the provider and no others.
  lemma ListedWhen(models: map<string, Registration>, lists: ClientLists, infos: map<string, map<string, ModelInfo>>,
                   providers: map<string, string>, p: string, m: string, now: int)
    requires m in models
    ensures var r, offers := models[m], Offers(lists, providers, p, m);
            var mine := set c | c in providers && providers[c] == p && c != "";
            var resting := set c | c in mine && c in r.quotaExceeded && now - r.quotaExceeded[c] < 300;
            var barred := set c | c in mine && c in r.suspended && ToLower(r.suspended[c]) != "quota";
            Listed(models, lists, infos, providers, p, m, now) <==>
            m != "" && offers > 0 && (barred == {} || offers > |resting| + |barred|)
  {
    OfferedWhen(Offers(lists, providers, p, m), models[m], ClientsOf(providers, p), now);
    assert ClientsOf(providers, p) == set c | c in providers && providers[c] == p && c != "";
    assert InfoFor(models, lists, infos, providers, p, m, models[m].info);
  }

  // One entry of the collection, and whether it is listed.
  predicate Shown(models: map<string, Registration>, providers: map<string, string>, p: string,
                  offers: map<string, Offer>, m: string, now: int)
  {
    m in offers && offers[m].info.Some?
    && AvailableFor(offers[m].count, Lookup(models, m), ClientsOf(providers, p), now)
  }

  lemma InfoIsNamed(models: map<string, Registration>, lists: ClientLists, infos: map<string, map<string, ModelInfo>>,
                    providers: map<string, string>, p: string, m: string, info: ModelInfo)
    ensures InfoFor(models, lists, infos, providers, p, m, info) <==>
            (m in models && models[m].info == info) || NamedBy(infos, TrimAll(Owned(lists, providers, p)), m, info)
  {
    var done := TrimAll(Owned(lists, providers, p));
    forall c ensures (c in done && m in done[c]) <==> (c in Owned(lists, providers, p) && m in Trims(lists[c])) {
    }
    if NamedBy(infos, done, m, info) {
      var c :| c in done && m in done[c] && c in infos && m in infos[c] && infos[c][m] == info;
      assert c in Owned(lists, providers, p) && m in Trims(lists[c]);
    }
    forall c | c in Owned(lists, providers, p) && m in Trims(lists[c]) ensures c in done && m in done[c] {
    }
  }

  lemma OfferKnown(models: map<string, Registration>, lists: ClientLists, infos: map<string, map<string, ModelInfo>>,
                   providers: map<string, string>, p: string, offers: map<string, Offer>, m: string)
    requires CollectedAt(models, infos, TrimAll(Owned(lists, providers, p)), offers, m) && m in offers
    ensures offers[m].info.Some? <==> exists info :: InfoFor(models, lists, infos, providers, p, m, info)
    ensures offers[m].info.Some? ==> InfoFor(models, lists, infos, providers, p, m, offers[m].info.value)
  {
    match offers[m].info
    case Some(info) => InfoIsNamed(models, lists, infos, providers, p, m, info);
    case None =>
      forall info ensures !InfoFor(models, lists, infos, providers, p, m, info) {
        InfoIsNamed(models, lists, infos, providers, p, m, info);
      }
  }

  lemma OfferListed(models: map<string, Registration>, lists: ClientLists, infos: map<string, map<string, ModelInfo>>,
                    providers: map<string, string>, p: string, offers: map<string, Offer>, m: string, now: int)
    requires CollectedAt(models, infos, TrimAll(Owned(lists, providers, p)), offers, m)
    ensures Listed(models, lists, infos, providers, p, m, now) <==> Shown(models, providers, p, offers, m, now)
    ensures m in offers && offers[m].info.Some? ==> InfoFor(models, lists, infos, providers, p, m, offers[m].info.value)
  {
    if m in offers {
      OfferKnown(models, lists, infos, providers, p, offers, m);
    }
  }

  method ShowOffers(models: map<string, Registration>, clientProviders: map<string, string>, provider: string,
                    offers: map<string, Offer>, now: int) returns (result: seq<ModelInfo>, ids: seq<string>)
    ensures |ids| == |result| && forall j, k :: 0 <= j < k < |ids| ==> ids[j] != ids[k]
    ensures forall m :: m in ids <==> Shown(models, clientProviders, provider, offers, m, now)
    ensures forall k :: 0 <= k < |ids| ==> ids[k] in offers && Some(result[k]) == offers[ids[k]].info
  {
    result, ids := [], [];
    var todo := offers.Keys;
    while todo != {}
      invariant todo <= offers.Keys
      invariant |ids| == |result| && forall j, k :: 0 <= j < k < |ids| ==> ids[j] != ids[k]
      invariant forall m :: m in ids <==> m !in todo && Shown(models, clientProviders, provider, offers, m, now)
      invariant forall k :: 0 <= k < |ids| ==> ids[k] in offers && Some(result[k]) == offers[ids[k]].info
      decreases todo
    {
      var m :| m in todo;
      todo := todo - {m};
      var available := IsAvailableFor(offers[m].count, Lookup(models, m), clientProviders, provider, now);
      if available {
        if offers[m].info.Some? {
          result, ids := result + [offers[m].info.value], ids + [m];
        }
      }
    }
  }

  // GetAvailableModelsByProvider; the maps are walked in any order. ids names the models listed.
  method ListProvider(models: map<string, Registration>, clientModels: ClientLists,
                      infos: map<string, map<string, ModelInfo>>,
                      clientProviders: map<string, string>, providerName: string, now: int)
    returns (result: seq<ModelInfo>, ids: seq<string>)
    requires clientProviders.Keys <= clientModels.Keys && infos.Keys == clientModels.Keys
    ensures |ids| == |result| && forall j, k :: 0 <= j < k < |ids| ==> ids[j] != ids[k]
    ensures var p := ToLower(Trim(providerName));
            && (forall m :: m in ids <==> p != "" && Listed(models, clientModels, infos, clientProviders, p, m, now))
            && forall k ::
              0 <= k < |ids| ==> InfoFor(models, clientModels, infos, clientProviders, p, ids[k], result[k])
  {
    var provider := ToLower(Trim(providerName));
    if provider == "" {
      return [], [];
    }
    var offers := CollectOffers(models, clientModels, infos, clientProviders, provider);
    result, ids := ShowOffers(models, clientProviders, provider, offers, now);
    forall m
      ensures Listed(models, clientModels, infos, clientProviders, provider, m, now) <==>
              Shown(models, clientProviders, provider, offers, m, now)
      ensures m in offers && offers[m].info.Some? ==>
              InfoFor(models, clientModels, infos, clientProviders, provider, m, offers[m].info.value)
    {
      assert CollectedAt(models, infos, TrimAll(Owned(clientModels, clientProviders, provider)), offers, m);
      OfferListed(models, clientModels, infos, clientProviders, provider, offers, m, now);
    }
  }

  // ----- A provider on its own -----

  lemma {:induction false} TrimCounts(ids: seq<string>, m: string)
    requires Trim(m) == m && forall id :: id in ids && Trim(id) == m ==> id == m
    ensures Times(Trims(ids), m) == Times(ids, m)
    decreases |ids|
  {
    if ids != [] {
      var n := |ids| - 1;
      assert forall id :: id in ids[..n] ==> id in ids;
      TrimCounts(ids[..n], m);
      TimesTake(ids, n, m);
      TimesTake(Trims(ids), n, m);
      TrimsTake(ids, n);
    }
  }

  lemma TrimsTake(ids: seq<string>, n: nat)
    requires n < |ids|
    ensures Trims(ids)[..n] == Trims(ids[..n])
    ensures n + 1 == |ids| ==> ids[..n + 1] == ids && Trims(ids)[..n + 1] == Trims(ids)
  {
  }

  lemma {:induction false} SameTotal(a: ClientLists, b: ClientLists, m: string)
    requires a.Keys == b.Keys && forall c :: c in a ==> Times(a[c], m) == Times(b[c], m)
    ensures Total(a, m) == Total(b, m)
    decreases |a|
  {
    if a == map[] {
      assert b == map[];
    } else {
      var c :| c in a;
      TotalPick(a, c, m);
      TotalPick(b, c, m);
      SameTotal(a - {c}, b - {c}, m);
    }
  }

  lemma {:induction false} OnlyTheseCount(lists: ClientLists, some: ClientLists, m: string)
    requires forall c :: c in some ==> c in lists && some[c] == lists[c]
    requires forall c :: c in lists && m in lists[c] ==> c in some
    ensures Total(lists, m) == Total(some, m)
    decreases |lists|
  {
    if lists == map[] {
      assert some == map[];
    } else {
      var d :| d in lists;
      TotalPick(lists, d, m);
      assert (lists - {d}).Keys == lists.Keys - {d};
      if d in some {
        TotalPick(some, d, m);
        OnlyTheseCount(lists - {d}, some - {d}, m);
      } else {
        OnlyTheseCount(lists - {d}, some, m);
      }
    }
  }

  lemma WithinIsMeet(a: set<string>, b: set<string>)
    requires a <= b
    ensures a * b == a
  {
  }

  // A provider whose clients alone list a model offers it as often as it is listed at all.
  lemma SoleOffers(lists: ClientLists, providers: map<string, string>, p: string, m: string)
    requires forall c, id ::
             c in lists && id in lists[c] && Trim(id) == m ==> id == m && c in Owned(lists, providers, p)
    requires Trim(m) == m
    ensures Offers(lists, providers, p, m) == Total(lists, m)
  {
    var owned := Owned(lists, providers, p);
    forall c | c in owned ensures Times(TrimAll(owned)[c], m) == Times(owned[c], m) {
      assert forall id :: id in owned[c] ==> c in lists && id in lists[c];
      TrimCounts(owned[c], m);
    }
    SameTotal(TrimAll(owned), owned, m);
    assert forall c :: c in lists && m in lists[c] ==> c in owned;
    OnlyTheseCount(lists, owned, m);
  }

  // Marks of these clients alone all count.
  lemma SoleMarks(r: Registration, clients: set<string>, now: int)
    requires r.quotaExceeded.Keys <= clients && r.suspended.Keys <= clients
    ensures AvailableFor(r.count, Some(r), clients, now) <==> Available(r, now)
  {
    WithinIsMeet(ActiveMarks(r.quotaExceeded, now), clients);
    WithinIsMeet(CooldownSuspended(r.suspended), clients);
    WithinIsMeet(OtherSuspended(r.suspended), clients);
  }

  // Where one provider's clients are the only ones that list a model and the only ones marked for
  // it, the provider's listing has it exactly if the listing of all models has it.
  lemma SoleProvider(models: map<string, Registration>, lists: ClientLists, infos: map<string, map<string, ModelInfo>>,
                     providers: map<string, string>, p: string, m: string, now: int)
    requires m in models && models[m].count == Total(lists, m)
    requires forall c, id ::
             c in lists && id in lists[c] && Trim(id) == m ==> id == m && c in Owned(lists, providers, p)
    requires Trim(m) == m && m != ""
    requires models[m].quotaExceeded.Keys <= ClientsOf(providers, p)
             && models[m].suspended.Keys <= ClientsOf(providers, p)
    ensures Offers(lists, providers, p, m) == models[m].count
    ensures Listed(models, lists, infos, providers, p, m, now) <==> m in AvailableIds(models, now)
  {
    SoleOffers(lists, providers, p, m);
    SoleMarks(models[m], ClientsOf(providers, p), now);
    assert InfoFor(models, lists, infos, providers, p, m, models[m].info);
  }
}
