/** What the model registry is for, as functions of its client tables: how often a model is
    listed in all, how often by the clients of one provider, and what one registration step
    does to one model's entry ("slot"). */
module RegistryModel {
  import opened Text

  // detail stands for every field of the source's ModelInfo except the identifier.
  datatype ModelInfo = ModelInfo(id: string, detail: string)

  datatype Registration = Registration(
    info: ModelInfo,
    infoByProvider: map<string, ModelInfo>,
    count: int,
    quotaExceeded: map<string, int>,
    providers: map<string, int>,
    suspended: map<string, string>)

  type Slot = Option<Registration>
  type ClientLists = map<string, seq<string>>

  // ----- Tallies over the client tables -----

  function Times(ids: seq<string>, m: string): nat {
    multiset(ids)[m]
  }

  lemma TimesTake(ids: seq<string>, i: nat, m: string)
    requires i < |ids|
    ensures Times(ids[..i + 1], m) == Times(ids[..i], m) + (if m == ids[i] then 1 else 0)
  {
    assert ids[..i + 1] == ids[..i] + [ids[i]];
  }

  // How often the clients list m, counting repetitions.
  ghost function Total(lists: ClientLists, m: string): nat {
    if lists == map[] then 0 else
      var c :| c in lists;
      Times(lists[c], m) + Total(lists - {c}, m)
  }

  ghost function Owned(lists: ClientLists, providers: map<string, string>, p: string): ClientLists {
    map c | c in lists && c in providers && providers[c] == p :: lists[c]
  }

  // The same sum over the clients of provider p.
  ghost function Share(lists: ClientLists, providers: map<string, string>, m: string, p: string): nat {
    Total(Owned(lists, providers, p), m)
  }

  ghost function Shares(lists: ClientLists, providers: map<string, string>, m: string): map<string, int> {
    map p | p in providers.Values && Share(lists, providers, m, p) > 0 :: Share(lists, providers, m, p)
  }

  lemma {:induction false} TotalPick(lists: ClientLists, c: string, m: string)
    requires c in lists
    ensures Total(lists, m) == Times(lists[c], m) + Total(lists - {c}, m)
    decreases |lists|
  {
    var d :| d in lists && Total(lists, m) == Times(lists[d], m) + Total(lists - {d}, m);
    if d != c {
      TotalPick(lists - {d}, c, m);
      TotalPick(lists - {c}, d, m);
      assert lists - {d} - {c} == lists - {c} - {d};
    }
  }

  // Client tables after client c's list becomes ids (no list when empty) and its provider p
  // (no provider when empty).
  function ListOf(lists: ClientLists, c: string): seq<string> {
    if c in lists then lists[c] else []
  }

  function ProviderOf(providers: map<string, string>, c: string): string {
    if c in providers then providers[c] else ""
  }

  function PutList(lists: ClientLists, c: string, ids: seq<string>): ClientLists {
    if ids == [] then lists - {c} else lists[c := ids]
  }

  function PutProvider(providers: map<string, string>, c: string, p: string): map<string, string> {
    if p == "" then providers - {c} else providers[c := p]
  }

  lemma TotalPut(lists: ClientLists, c: string, ids: seq<string>, m: string)
    ensures Total(PutList(lists, c, ids), m) + Times(ListOf(lists, c), m) == Total(lists, m) + Times(ids, m)
  {
    if c in lists {
      TotalPick(lists, c, m);
    } else {
      assert lists - {c} == lists;
    }
    if ids != [] {
      TotalPick(lists[c := ids], c, m);
      assert lists[c := ids] - {c} == lists - {c};
    }
  }

  lemma {:induction false} TotalPositive(lists: ClientLists, m: string)
    ensures Total(lists, m) > 0 <==> exists c :: c in lists && m in lists[c]
    decreases |lists|
  {
    if lists != map[] {
      var d :| d in lists && Total(lists, m) == Times(lists[d], m) + Total(lists - {d}, m);
      TotalPositive(lists - {d}, m);
      if Times(lists[d], m) > 0 {
        assert m in lists[d];
      } else if Total(lists, m) > 0 {
        var c :| c in lists - {d} && m in (lists - {d})[c];
        assert c in lists && m in lists[c];
      }
      forall c | c in lists && m in lists[c] ensures Total(lists, m) > 0 {
        TotalPick(lists, c, m);
      }
    }
  }

  ghost predicate TablesOk(lists: ClientLists, providers: map<string, string>) {
    && providers.Keys <= lists.Keys
    && "" !in providers.Values
    && forall c :: c in lists ==> lists[c] != []
  }

  // shares holds p exactly v times; absent means zero.
  ghost predicate Has(shares: map<string, int>, p: string, v: int) {
    if p in shares then shares[p] == v && v > 0 else v == 0
  }

  lemma SharesHas(lists: ClientLists, providers: map<string, string>, m: string, p: string)
    ensures Has(Shares(lists, providers, m), p, Share(lists, providers, m, p))
  {
    if Share(lists, providers, m, p) > 0 {
      TotalPositive(Owned(lists, providers, p), m);
    }
  }

  lemma SharePut(lists: ClientLists, providers: map<string, string>, c: string, ids: seq<string>, q: string,
                 m: string, p: string)
    requires p != ""
    ensures Share(PutList(lists, c, ids), PutProvider(providers, c, q), m, p)
            + (if ProviderOf(providers, c) == p then Times(ListOf(lists, c), m) else 0)
            == Share(lists, providers, m, p) + (if q == p then Times(ids, m) else 0)
    ensures ProviderOf(providers, c) == p ==> Times(ListOf(lists, c), m) <= Share(lists, providers, m, p)
  {
    var was := Owned(lists, providers, p);
    var now := Owned(PutList(lists, c, ids), PutProvider(providers, c, q), p);
    var mine := if q == p then ids else [];
    assert now == PutList(was, c, mine);
    TotalPut(was, c, mine, m);
    if c in was {
      TotalPick(was, c, m);
    }
  }

  // ----- Arithmetic on share maps -----

  function Minus(shares: map<string, int>, p: string, k: nat): map<string, int> {
    if k == 0 || p == "" || p !in shares then shares
    else if shares[p] <= k then shares - {p}
    else shares[p := shares[p] - k]
  }

  function Plus(shares: map<string, int>, p: string, k: nat): map<string, int> {
    if k == 0 || p == "" then shares
    else shares[p := (if p in shares then shares[p] else 0) + k]
  }

  lemma MovedHas(shares: map<string, int>, p: string, v: nat, oldP: string, o: nat, newP: string, n: nat)
    requires p != "" && Has(shares, p, v)
    requires oldP == p ==> o <= v
    ensures Has(Plus(Minus(shares, oldP, o), newP, n), p,
                v - (if oldP == p then o else 0) + (if newP == p then n else 0))
  {
  }

  lemma NoBlankProvider(providers: map<string, string>, c: string, q: string)
    requires "" !in providers.Values
    ensures "" !in PutProvider(providers, c, q).Values
  {
    forall d | d in PutProvider(providers, c, q) ensures PutProvider(providers, c, q)[d] != "" {
      assert d != c ==> providers[d] in providers.Values;
    }
  }

  lemma SharesPut(lists: ClientLists, providers: map<string, string>, c: string, ids: seq<string>, q: string, m: string)
    requires TablesOk(lists, providers)
    ensures Shares(PutList(lists, c, ids), PutProvider(providers, c, q), m)
            == Plus(Minus(Shares(lists, providers, m), ProviderOf(providers, c), Times(ListOf(lists, c), m)), q,
                    Times(ids, m))
  {
    var was := Shares(lists, providers, m);
    var now := Shares(PutList(lists, c, ids), PutProvider(providers, c, q), m);
    var oldP, o, n := ProviderOf(providers, c), Times(ListOf(lists, c), m), Times(ids, m);
    var want := Plus(Minus(was, oldP, o), q, n);
    NoBlankProvider(providers, c, q);
    forall p ensures (p in now <==> p in want) && (p in now ==> now[p] == want[p]) {
      if p != "" {
        SharesHas(lists, providers, m, p);
        SharesHas(PutList(lists, c, ids), PutProvider(providers, c, q), m, p);
        SharePut(lists, providers, c, ids, q, m, p);
        MovedHas(was, p, Share(lists, providers, m, p), oldP, o, q, n);
      }
    }
    assert now == want;
  }

  // ----- One model's entry -----

  function Lookup(models: map<string, Registration>, m: string): Slot {
    if m in models then Some(models[m]) else None
  }

  // An entry agrees with the tables: present iff listed, and counted exactly.
  ghost predicate SlotCounts(slot: Slot, total: nat, shares: map<string, int>) {
    match slot
    case None => total == 0 && shares == map[]
    case Some(r) =>
      && total > 0
      && r.count == total
      && r.providers == shares
      && r.infoByProvider.Keys == shares.Keys
  }

  ghost predicate IndexCounts(models: map<string, Registration>, lists: ClientLists, providers: map<string, string>) {
    forall m :: SlotCounts(Lookup(models, m), Total(lists, m), Shares(lists, providers, m))
  }

  function Blank(info: ModelInfo): Registration {
    Registration(info, map[], 0, map[], map[], map[])
  }

  // Takes k bindings of provider p out of an entry, with p's info once none is left.
  function Release(r: Registration, p: string, k: nat): Registration {
    if k == 0 || p == "" || p !in r.providers then r
    else if r.providers[p] <= k then
      r.(providers := r.providers - {p}, infoByProvider := r.infoByProvider - {p})
    else r.(providers := r.providers[p := r.providers[p] - k])
  }

  function Grant(r: Registration, p: string, k: nat, info: ModelInfo): Registration {
    if k == 0 || p == "" then r
    else r.(providers := Plus(r.providers, p, k), infoByProvider := r.infoByProvider[p := info])
  }

  function ClearMarks(r: Registration, client: string): Registration {
    r.(quotaExceeded := r.quotaExceeded - {client}, suspended := r.suspended - {client})
  }

  // removeModelRegistration on one entry.
  function DropOne(slot: Slot, client: string, p: string): Slot {
    match slot
    case None => None
    case Some(r) =>
      if r.count - 1 <= 0 then None
      else Some(Release(ClearMarks(r, client).(count := r.count - 1), p, 1))
  }

  function DropTimes(slot: Slot, client: string, p: string, k: nat): Slot {
    if k == 0 then slot else DropOne(DropTimes(slot, client, p, k - 1), client, p)
  }

  // addModelRegistration on one entry.
  function AddOne(slot: Slot, p: string, info: ModelInfo): Slot {
    var r := if slot.Some? then slot.value else Blank(info);
    Some(Grant(r.(count := r.count + 1, info := info), p, 1, info))
  }

  function AddTimes(slot: Slot, p: string, info: ModelInfo, k: nat): Slot {
    if k == 0 then slot else AddOne(AddTimes(slot, p, info, k - 1), p, info)
  }

  // What a registration step means for one entry: the client's o bindings under oldP become n
  // bindings under newP.
  function Rebound(slot: Slot, client: string, clears: bool, oldP: string, o: nat, newP: string, n: nat,
                   info: ModelInfo): Slot {
    var r := if slot.Some? then slot.value else Blank(info);
    var count := r.count - o + n;
    if count <= 0 then None else
      var moved := Grant(Release(r, oldP, o), newP, n, info).(count := count, info := if n > 0 then info else r.info);
      Some(if clears then ClearMarks(moved, client) else moved)
  }

  // The entry can give up o bindings of provider p.
  ghost predicate Holds(slot: Slot, p: string, o: nat) {
    match slot
    case None => o == 0
    case Some(r) =>
      r.count >= 1 && o <= r.count && Lends(r, p, o)
  }

  ghost predicate Lends(r: Registration, p: string, o: nat) {
    && r.infoByProvider.Keys == r.providers.Keys
    && (forall q :: q in r.providers ==> r.providers[q] >= 1)
    && (p != "" && o > 0 ==> p in r.providers && o <= r.providers[p])
  }

  // Book-keeping of providers is independent of counts, marks and metadata.
  lemma ReleaseApart(r: Registration, client: string, count: int, p: string, k: nat)
    ensures Release(ClearMarks(r, client).(count := count), p, k)
            == ClearMarks(Release(r, p, k), client).(count := count)
  {
  }

  lemma GrantApart(r: Registration, count: int, p: string, k: nat, info: ModelInfo)
    ensures Grant(r.(count := count, info := info), p, k, info) == Grant(r, p, k, info).(count := count, info := info)
  {
  }

  lemma ReleaseOnceMore(r: Registration, p: string, k: nat)
    requires k > 1 && forall q :: q in r.providers ==> r.providers[q] >= 1
    ensures Release(Release(r, p, k - 1), p, 1) == Release(r, p, k)
  {
    if p in r.providers {
      assert r.providers[p := r.providers[p] - (k - 1)] - {p} == r.providers - {p};
      assert r.providers[p := r.providers[p] - (k - 1)][p := r.providers[p] - k]
             == r.providers[p := r.providers[p] - k];
    }
  }

  lemma ClearTwice(r: Registration, client: string)
    ensures ClearMarks(ClearMarks(r, client), client) == ClearMarks(r, client)
  {
  }

  lemma DropOnceMore(r: Registration, client: string, p: string, k: nat)
    requires k > 1 && r.count > k - 1 && forall q :: q in r.providers ==> r.providers[q] >= 1
    ensures DropOne(Some(Release(ClearMarks(r, client).(count := r.count - (k - 1)), p, k - 1)), client, p) ==
            if r.count <= k then None else Some(Release(ClearMarks(r, client).(count := r.count - k), p, k))
  {
    ClearTwice(r, client);
    ReleaseOnceMore(r, p, k);
    ReleaseApart(r, client, r.count - k, p, k);
    ReleaseApart(r, client, r.count - (k - 1), p, k - 1);
    ReleaseApart(Release(r, p, k - 1), client, r.count - k, p, 1);
  }

  lemma {:induction false} DropTimesClosed(slot: Slot, client: string, p: string, k: nat)
    requires k > 0 && Holds(slot, "", 0)
    ensures DropTimes(slot, client, p, k) ==
            if slot.None? || slot.value.count <= k then None
            else Some(Release(ClearMarks(slot.value, client).(count := slot.value.count - k), p, k))
  {
    if k > 1 {
      DropTimesClosed(slot, client, p, k - 1);
      if slot.Some? && slot.value.count > k - 1 {
        DropOnceMore(slot.value, client, p, k);
      }
    }
  }

  lemma {:induction false} AddTimesClosed(slot: Slot, p: string, info: ModelInfo, k: nat)
    requires k > 0
    ensures var r := if slot.Some? then slot.value else Blank(info);
            AddTimes(slot, p, info, k) == Some(Grant(r.(count := r.count + k, info := info), p, k, info))
  {
    if k > 1 {
      AddTimesClosed(slot, p, info, k - 1);
      var r := if slot.Some? then slot.value else Blank(info);
      var had := if p in r.providers then r.providers[p] else 0;
      assert r.providers[p := had + (k - 1)][p := had + k] == r.providers[p := had + k];
      assert r.infoByProvider[p := info][p := info] == r.infoByProvider[p := info];
    }
  }

  // ----- The in-place reconciliation of one entry, phase by phase -----

  function Min(a: nat, b: nat): nat {
    if a < b then a else b
  }

  // A provider change first takes the bindings that stay out of the old provider's share.
  function MovedOut(slot: Slot, oldP: string, newP: string, o: nat, n: nat): Slot {
    if slot.Some? && oldP != newP then Some(Release(slot.value, oldP, Min(o, n))) else slot
  }

  // Removed models and overage.
  function Trimmed(slot: Slot, client: string, oldP: string, o: nat, n: nat): Slot {
    DropTimes(slot, client, oldP, if o > n then o - n else 0)
  }

  function Topped(slot: Slot, newP: string, o: nat, n: nat, info: ModelInfo): Slot {
    AddTimes(slot, newP, info, if n > o then n - o else 0)
  }

  // The metadata pass files the info and moves the bindings that stay to the new provider.
  function Settle(r: Registration, oldP: string, newP: string, o: nat, n: nat, info: ModelInfo): Registration {
    r.(infoByProvider := if newP != "" then r.infoByProvider[newP := info] else r.infoByProvider,
       providers := if oldP != newP then Plus(r.providers, newP, Min(o, n)) else r.providers)
  }

  function Refreshed(slot: Slot, client: string, oldP: string, newP: string, o: nat, n: nat, info: ModelInfo): Slot {
    if slot.None? || n == 0 then slot
    else Some(ClearMarks(Settle(slot.value, oldP, newP, o, n, info).(info := info), client))
  }

  lemma MovedOutHolds(slot: Slot, oldP: string, newP: string, o: nat, n: nat)
    requires Holds(slot, oldP, o)
    ensures Holds(MovedOut(slot, oldP, newP, o, n), "", 0)
  {
  }

  function Phases(slot: Slot, client: string, oldP: string, o: nat, newP: string, n: nat, info: ModelInfo): Slot {
    Refreshed(Topped(Trimmed(MovedOut(slot, oldP, newP, o, n), client, oldP, o, n), newP, o, n, info),
              client, oldP, newP, o, n, info)
  }

  // The provider book-keeping of the phases on an entry, without counts and marks.
  function Swapped(r: Registration, oldP: string, o: nat, newP: string, n: nat, info: ModelInfo): Registration {
    var r1 := if oldP != newP then Release(r, oldP, Min(o, n)) else r;
    var r2 := Release(r1, oldP, if o > n then o - n else 0);
    var r3 := Grant(r2, newP, if n > o then n - o else 0, info);
    if n > 0 then Settle(r3, oldP, newP, o, n, info) else r3
  }

  lemma SharesSwapped(shares: map<string, int>, p: string, o: nat, n: nat)
    requires p != "" && p in shares && shares[p] >= o > 0
    ensures o > n > 0 ==> shares[p := shares[p] - (o - n)] == Plus(Minus(shares, p, o), p, n)
    ensures o <= n ==> Plus(shares, p, n - o) == Plus(Minus(shares, p, o), p, n)
  {
  }

  lemma SwappedSameShares(r: Registration, p: string, o: nat, n: nat, info: ModelInfo)
    requires Lends(r, p, o) && p != "" && o > 0
    ensures Swapped(r, p, o, p, n, info).providers == Grant(Release(r, p, o), p, n, info).providers
  {
    SharesSwapped(r.providers, p, o, n);
  }

  lemma SwappedSameInfos(r: Registration, p: string, o: nat, n: nat, info: ModelInfo)
    requires Lends(r, p, o) && p != "" && o > 0
    ensures Swapped(r, p, o, p, n, info).infoByProvider == Grant(Release(r, p, o), p, n, info).infoByProvider
  {
    assert n > 0 ==> (r.infoByProvider - {p})[p := info] == r.infoByProvider[p := info];
  }

  // Two entries that differ at most in the providers' books.
  ghost predicate OnlyBooks(r: Registration, s: Registration) {
    && r.info == s.info && r.count == s.count
    && r.quotaExceeded == s.quotaExceeded && r.suspended == s.suspended
  }

  lemma ReleaseOnlyBooks(r: Registration, p: string, k: nat)
    ensures OnlyBooks(r, Release(r, p, k))
  {
  }

  lemma SettleOnlyBooks(r: Registration, oldP: string, newP: string, o: nat, n: nat, info: ModelInfo)
    ensures OnlyBooks(r, Settle(r, oldP, newP, o, n, info))
  {
  }

  lemma SwappedOnlyBooks(r: Registration, p: string, o: nat, n: nat, info: ModelInfo)
    ensures OnlyBooks(r, Swapped(r, p, o, p, n, info))
  {
    var r2 := Release(r, p, if o > n then o - n else 0);
    ReleaseOnlyBooks(r, p, if o > n then o - n else 0);
    var r3 := Grant(r2, p, if n > o then n - o else 0, info);
    SettleOnlyBooks(r3, p, p, o, n, info);
  }

  lemma SwappedSame(r: Registration, p: string, o: nat, n: nat, info: ModelInfo)
    requires Lends(r, p, o)
    ensures Swapped(r, p, o, p, n, info) == Grant(Release(r, p, o), p, n, info)
  {
    if p != "" && o > 0 {
      SwappedSameShares(r, p, o, n, info);
      SwappedSameInfos(r, p, o, n, info);
      SwappedOnlyBooks(r, p, o, n, info);
      ReleaseOnlyBooks(r, p, o);
    }
  }

  lemma PutAgain(shares: map<string, int>, p: string, a: int, b: int)
    ensures shares[p := a][p := b] == shares[p := b] && shares[p := a] - {p} == shares - {p}
  {
  }

  lemma ReleaseAgain(r: Registration, p: string, a: nat, b: nat)
    requires forall q :: q in r.providers ==> r.providers[q] >= 1
    ensures Release(Release(r, p, a), p, b) == Release(r, p, a + b)
  {
    if p in r.providers {
      PutAgain(r.providers, p, r.providers[p] - a, r.providers[p] - (a + b));
    }
  }

  lemma GrantAgain(r: Registration, p: string, a: nat, b: nat, info: ModelInfo)
    requires p != "" && a + b > 0
    ensures Plus(Plus(r.providers, p, a), p, b) == Plus(r.providers, p, a + b)
    ensures Grant(r, p, a, info).infoByProvider[p := info] == Grant(r, p, a + b, info).infoByProvider
  {
    assert Plus(Plus(r.providers, p, a), p, b) == Plus(r.providers, p, a + b);
  }

  lemma SwappedOther(r: Registration, oldP: string, o: nat, newP: string, n: nat, info: ModelInfo)
    requires Lends(r, oldP, o) && oldP != newP
    ensures Swapped(r, oldP, o, newP, n, info) == Grant(Release(r, oldP, o), newP, n, info)
  {
    if o > n {
      ReleaseAgain(r, oldP, n, o - n);
    }
    if newP != "" && n > 0 {
      GrantAgain(Release(r, oldP, o), newP, if n > o then n - o else 0, Min(o, n), info);
    }
  }

  // Settling the books of an entry whose marks are already cleared.
  lemma SettledApart(r: Registration, client: string, count: int, oldP: string, newP: string, o: nat, n: nat,
                     info: ModelInfo)
    ensures ClearMarks(Settle(ClearMarks(r, client).(count := count), oldP, newP, o, n, info).(info := info), client)
            == ClearMarks(Settle(r, oldP, newP, o, n, info), client).(count := count, info := info)
  {
    ClearTwice(r, client);
  }

  lemma TrimmedClosed(slot: Slot, client: string, oldP: string, o: nat, newP: string, n: nat)
    requires Holds(slot, oldP, o) && o > n
    ensures var s1 := MovedOut(slot, oldP, newP, o, n);
            s1.Some? && Trimmed(s1, client, oldP, o, n) ==
            if s1.value.count <= o - n then None
            else Some(ClearMarks(Release(s1.value, oldP, o - n), client).(count := s1.value.count - (o - n)))
  {
    var s1 := MovedOut(slot, oldP, newP, o, n);
    MovedOutHolds(slot, oldP, newP, o, n);
    DropTimesClosed(s1, client, oldP, o - n);
    ReleaseApart(s1.value, client, s1.value.count - (o - n), oldP, o - n);
  }

  lemma PhasesFewer(slot: Slot, client: string, oldP: string, o: nat, newP: string, n: nat, info: ModelInfo)
    requires Holds(slot, oldP, o) && o > n
    ensures var r := slot.value;
            Phases(slot, client, oldP, o, newP, n, info) ==
            if r.count - o + n <= 0 then None
            else Some(ClearMarks(Swapped(r, oldP, o, newP, n, info), client)
                      .(count := r.count - o + n, info := if n > 0 then info else r.info))
  {
    TrimmedClosed(slot, client, oldP, o, newP, n);
    var left := Release(MovedOut(slot, oldP, newP, o, n).value, oldP, o - n);
    SettledApart(left, client, left.count - (o - n), oldP, newP, o, n, info);
  }

  lemma PhasesMore(slot: Slot, client: string, oldP: string, o: nat, newP: string, n: nat, info: ModelInfo)
    requires Holds(slot, oldP, o) && o <= n && n > 0
    ensures var r := if slot.Some? then slot.value else Blank(info);
            Phases(slot, client, oldP, o, newP, n, info) ==
            Some(ClearMarks(Swapped(r, oldP, o, newP, n, info), client).(count := r.count - o + n, info := info))
  {
    var s1 := MovedOut(slot, oldP, newP, o, n);
    if n > o {
      AddTimesClosed(s1, newP, info, n - o);
      var r1 := if s1.Some? then s1.value else Blank(info);
      GrantApart(r1, r1.count + (n - o), newP, n - o, info);
    }
  }

  lemma PhasesSwap(slot: Slot, client: string, oldP: string, o: nat, newP: string, n: nat, info: ModelInfo)
    requires Holds(slot, oldP, o) && o + n > 0
    ensures var r := if slot.Some? then slot.value else Blank(info);
            Phases(slot, client, oldP, o, newP, n, info) ==
            if r.count - o + n <= 0 then None
            else Some(ClearMarks(Swapped(r, oldP, o, newP, n, info), client)
                      .(count := r.count - o + n, info := if n > 0 then info else r.info))
  {
    if o > n {
      PhasesFewer(slot, client, oldP, o, newP, n, info);
    } else {
      PhasesMore(slot, client, oldP, o, newP, n, info);
    }
  }

  lemma SwappedIsRebooked(r: Registration, oldP: string, o: nat, newP: string, n: nat, info: ModelInfo)
    requires Lends(r, oldP, o)
    ensures Swapped(r, oldP, o, newP, n, info) == Grant(Release(r, oldP, o), newP, n, info)
  {
    if oldP == newP {
      SwappedSame(r, oldP, o, n, info);
    } else {
      SwappedOther(r, oldP, o, newP, n, info);
    }
  }

  lemma ClearApart(r: Registration, client: string, count: int, info: ModelInfo)
    ensures ClearMarks(r.(count := count, info := info), client) == ClearMarks(r, client).(count := count, info := info)
  {
  }

  // Phase by phase or in one go: the in-place difference means the one-step change.
  lemma PhasesAreRebound(slot: Slot, client: string, oldP: string, o: nat, newP: string, n: nat, info: ModelInfo)
    requires Holds(slot, oldP, o)
    ensures Phases(slot, client, oldP, o, newP, n, info) == Rebound(slot, client, o + n > 0, oldP, o, newP, n, info)
  {
    if o + n > 0 {
      PhasesSwap(slot, client, oldP, o, newP, n, info);
      var r := if slot.Some? then slot.value else Blank(info);
      SwappedIsRebooked(r, oldP, o, newP, n, info);
      ClearApart(Grant(Release(r, oldP, o), newP, n, info), client, r.count - o + n, if n > 0 then info else r.info);
    }
  }

  // ----- One registration step on the whole index -----

  function InfoOf(infos: map<string, ModelInfo>, m: string): ModelInfo {
    if m in infos then infos[m] else ModelInfo(m, "")
  }

  // Client c's list becomes ids under provider p; a client already known clears its marks on
  // every model in its old or new list.
  function Step(models: map<string, Registration>, lists: ClientLists, providers: map<string, string>,
                c: string, ids: seq<string>, p: string, infos: map<string, ModelInfo>, m: string): Slot
  {
    var o, n := Times(ListOf(lists, c), m), Times(ids, m);
    Rebound(Lookup(models, m), c, c in lists && o + n > 0, ProviderOf(providers, c), o, p, n, InfoOf(infos, m))
  }

  lemma TablesHold(slot: Slot, lists: ClientLists, providers: map<string, string>, c: string, m: string)
    requires SlotCounts(slot, Total(lists, m), Shares(lists, providers, m))
    ensures Holds(slot, ProviderOf(providers, c), Times(ListOf(lists, c), m))
  {
    if c in lists {
      TotalPick(lists, c, m);
    }
    var p := ProviderOf(providers, c);
    if p != "" {
      SharePut(lists, providers, c, [], "", m, p);
      SharesHas(lists, providers, m, p);
    }
  }

  lemma NothingShared(lists: ClientLists, providers: map<string, string>, m: string)
    requires Total(lists, m) == 0
    ensures Shares(lists, providers, m) == map[]
  {
    TotalPositive(lists, m);
    forall p ensures p !in Shares(lists, providers, m) {
      SharesHas(lists, providers, m, p);
      TotalPositive(Owned(lists, providers, p), m);
    }
  }

  lemma ReboundShares(slot: Slot, client: string, clears: bool, oldP: string, o: nat, newP: string, n: nat,
                      info: ModelInfo, shares: map<string, int>)
    requires Holds(slot, oldP, o)
    requires match slot case None => shares == map[] case Some(r) => r.providers == shares
    ensures var s := Rebound(slot, client, clears, oldP, o, newP, n, info);
            s.Some? ==> s.value.providers == Plus(Minus(shares, oldP, o), newP, n)
                        && s.value.infoByProvider.Keys == s.value.providers.Keys
  {
  }

  lemma DropIsStep(slot: Slot, client: string, p: string, o: nat, info: ModelInfo)
    requires Holds(slot, p, o)
    ensures DropTimes(slot, client, p, o) == Rebound(slot, client, o > 0, p, o, "", 0, info)
  {
    if o > 0 {
      DropTimesClosed(slot, client, p, o);
      ReleaseApart(slot.value, client, slot.value.count - o, p, o);
    }
  }

  lemma AddIsStep(slot: Slot, client: string, p: string, n: nat, info: ModelInfo)
    requires Holds(slot, "", 0)
    ensures AddTimes(slot, p, info, n) == Rebound(slot, client, false, "", 0, p, n, info)
  {
    if n > 0 {
      AddTimesClosed(slot, p, info, n);
      var r := if slot.Some? then slot.value else Blank(info);
      GrantApart(r, r.count + n, p, n, info);
    }
  }

  // The reference counts stay exact through any registration step, duplicates and provider
  // changes included.
  lemma StepKeepsCounts(models: map<string, Registration>, lists: ClientLists, providers: map<string, string>,
                        c: string, ids: seq<string>, p: string, infos: map<string, ModelInfo>,
                        models': map<string, Registration>)
    requires TablesOk(lists, providers) && IndexCounts(models, lists, providers)
    requires forall m :: Lookup(models', m) == Step(models, lists, providers, c, ids, p, infos, m)
    ensures IndexCounts(models', PutList(lists, c, ids), PutProvider(providers, c, p))
  {
    var lists', providers' := PutList(lists, c, ids), PutProvider(providers, c, p);
    forall m ensures SlotCounts(Lookup(models', m), Total(lists', m), Shares(lists', providers', m)) {
      var slot := Lookup(models, m);
      var oldP, o, n := ProviderOf(providers, c), Times(ListOf(lists, c), m), Times(ids, m);
      assert SlotCounts(slot, Total(lists, m), Shares(lists, providers, m));
      TablesHold(slot, lists, providers, c, m);
      TotalPut(lists, c, ids, m);
      SharesPut(lists, providers, c, ids, p, m);
      ReboundShares(slot, c, c in lists && o + n > 0, oldP, o, p, n, InfoOf(infos, m), Shares(lists, providers, m));
      if Total(lists', m) == 0 {
        NothingShared(lists', providers', m);
      }
    }
  }

  // ----- Availability at an instant -----

  // modelQuotaExceededWindow, in the clock's unit of seconds.
  const QUOTA_WINDOW := 300

  // The reason of a suspension that is a cooldown.
  const QUOTA_REASON := "quota"

  function ActiveMarks(quota: map<string, int>, now: int): set<string> {
    set c | c in quota && now < quota[c] + QUOTA_WINDOW
  }

  function CooldownSuspended(suspended: map<string, string>): set<string> {
    set c | c in suspended && EqualFold(suspended[c], QUOTA_REASON)
  }

  function OtherSuspended(suspended: map<string, string>): set<string> {
    set c | c in suspended && !EqualFold(suspended[c], QUOTA_REASON)
  }

  predicate Available(r: Registration, now: int) {
    var expired, other := |ActiveMarks(r.quotaExceeded, now)|, |OtherSuspended(r.suspended)|;
    || r.count - expired - other > 0
    || (r.count > 0 && (expired > 0 || |CooldownSuspended(r.suspended)| > 0) && other == 0)
  }

  ghost function AvailableIds(models: map<string, Registration>, now: int): set<string> {
    set m | m in models && Available(models[m], now)
  }

  function ModelCount(slot: Slot, now: int): int {
    match slot
    case None => 0
    case Some(r) =>
      var left := r.count - |ActiveMarks(r.quotaExceeded, now)| - |r.suspended|;
      if left < 0 then 0 else left
  }

  // convertModelToMap, kept opaque: the rendered entry of one model for one handler type.
  datatype ModelView = ModelView(info: ModelInfo, handler: string)

  ghost function Listing(models: map<string, Registration>, ids: set<string>, handler: string): multiset<ModelView>
    requires ids <= models.Keys
  {
    if ids == {} then multiset{} else
      var m :| m in ids;
      multiset{ModelView(models[m].info, handler)} + Listing(models, ids - {m}, handler)
  }

  lemma {:induction false} ListingPick(models: map<string, Registration>, ids: set<string>, m: string, handler: string)
    requires ids <= models.Keys && m in ids
    ensures Listing(models, ids, handler)
            == multiset{ModelView(models[m].info, handler)} + Listing(models, ids - {m}, handler)
    decreases |ids|
  {
    var d :| d in ids && Listing(models, ids, handler)
                         == multiset{ModelView(models[d].info, handler)} + Listing(models, ids - {d}, handler);
    if d != m {
      ListingPick(models, ids - {d}, m, handler);
      ListingPick(models, ids - {m}, d, handler);
      assert ids - {d} - {m} == ids - {m} - {d};
    }
  }

  // The answer GetAvailableModels owes its caller at an instant.
  ghost function AnswerAt(models: map<string, Registration>, handler: string, now: int): multiset<ModelView> {
    Listing(models, AvailableIds(models, now), handler)
  }

  // ----- The per-handler cache -----

  datatype CacheEntry = CacheEntry(models: seq<ModelView>, expiresAt: Option<int>)

  predicate Fresh(entry: CacheEntry, now: int) {
    entry.expiresAt.None? || now < entry.expiresAt.value
  }

  // Whether a cooldown of model m, still running at instant built, ends at instant end.
  ghost predicate Ends(models: map<string, Registration>, built: int, m: string, c: string, end: int) {
    && m in models && c in models[m].quotaExceeded
    && built < models[m].quotaExceeded[c] + QUOTA_WINDOW == end
  }

  // Some cooldown of an entry, running at instant now, ends at instant end.
  ghost predicate Recovers(quota: map<string, int>, now: int, end: int) {
    exists c :: c in ActiveMarks(quota, now) && end == quota[c] + QUOTA_WINDOW
  }

  // expiresAt is the least recovery time still ahead of built, none when nothing is cooling down.
  ghost predicate LeastRecovery(models: map<string, Registration>, built: int, expiresAt: Option<int>) {
    && (forall m, c, end :: Ends(models, built, m, c, end) ==> expiresAt.Some? && expiresAt.value <= end)
    && (expiresAt.Some? ==> exists m, c :: Ends(models, built, m, c, expiresAt.value))
  }

  // An answer computed at built is the right answer at every later instant before expiresAt...
  lemma AnswerStable(models: map<string, Registration>, built: int, expiresAt: Option<int>, handler: string, now: int)
    requires LeastRecovery(models, built, expiresAt)
    requires built <= now && (expiresAt.None? || now < expiresAt.value)
    ensures AnswerAt(models, handler, now) == AnswerAt(models, handler, built)
  {
    forall m | m in models
      ensures ActiveMarks(models[m].quotaExceeded, now) == ActiveMarks(models[m].quotaExceeded, built)
    {
      var quota := models[m].quotaExceeded;
      forall c | c in quota && built < quota[c] + QUOTA_WINDOW ensures now < quota[c] + QUOTA_WINDOW {
        assert Ends(models, built, m, c, quota[c] + QUOTA_WINDOW);
      }
    }
    assert AvailableIds(models, now) == AvailableIds(models, built);
  }

  // An entry built at instant b is the right answer from then on, as long as it is fresh.
  ghost predicate RightFrom(entry: CacheEntry, models: map<string, Registration>, h: string, b: int) {
    Fresh(entry, b) && forall t :: b <= t && Fresh(entry, t) ==> multiset(entry.models) == AnswerAt(models, h, t)
  }

  ghost predicate CacheCoherent(cache: map<string, CacheEntry>, models: map<string, Registration>, clock: int) {
    forall h :: h in cache ==> exists b :: b <= clock && RightFrom(cache[h], models, h, b)
  }

  // An answer that was right at some instant of a stretch of time.
  ghost predicate RightWithin(answer: seq<ModelView>, models: map<string, Registration>, h: string, first: int,
                              last: int) {
    exists t :: first <= t <= last && multiset(answer) == AnswerAt(models, h, t)
  }

  function Later(a: int, b: int): int {
    if a < b then b else a
  }

  // An entry that was fresh when the clock was read may have been built since, but not be older.
  lemma CachedIsRight(cache: map<string, CacheEntry>, models: map<string, Registration>, clock: int, h: string,
                      now: int)
    requires CacheCoherent(cache, models, clock) && h in cache && Fresh(cache[h], now)
    ensures RightWithin(cache[h].models, models, h, now, Later(clock, now))
  {
    var b :| b <= clock && RightFrom(cache[h], models, h, b);
    var t := Later(b, now);
    assert Fresh(cache[h], t);
    assert multiset(cache[h].models) == AnswerAt(models, h, t);
  }

  lemma BuiltIsRight(answer: seq<ModelView>, models: map<string, Registration>, h: string, now: int,
                     expiresAt: Option<int>)
    requires multiset(answer) == AnswerAt(models, h, now) && LeastRecovery(models, now, expiresAt)
    ensures RightFrom(CacheEntry(answer, expiresAt), models, h, now)
  {
    forall t | now <= t && Fresh(CacheEntry(answer, expiresAt), t) ensures multiset(answer) == AnswerAt(models, h, t) {
      AnswerStable(models, now, expiresAt, h, t);
    }
  }

  lemma CoherentLater(cache: map<string, CacheEntry>, models: map<string, Registration>, clock: int, later: int)
    requires CacheCoherent(cache, models, clock) && clock <= later
    ensures CacheCoherent(cache, models, later)
  {
    forall h | h in cache ensures exists b :: b <= later && RightFrom(cache[h], models, h, b) {
      var b :| b <= clock && RightFrom(cache[h], models, h, b);
    }
  }

  lemma CoherentWith(cache: map<string, CacheEntry>, models: map<string, Registration>, clock: int, h: string,
                     entry: CacheEntry, b: int)
    requires CacheCoherent(cache, models, clock) && b <= clock && RightFrom(entry, models, h, b)
    ensures CacheCoherent(cache[h := entry], models, clock)
  {
    var cache' := cache[h := entry];
    forall k | k in cache' ensures exists b' :: b' <= clock && RightFrom(cache'[k], models, k, b') {
      if k != h {
        var b' :| b' <= clock && RightFrom(cache[k], models, k, b');
      }
    }
  }

  lemma RightAt(answer: seq<ModelView>, models: map<string, Registration>, h: string, now: int, last: int)
    requires multiset(answer) == AnswerAt(models, h, now) && now <= last
    ensures RightWithin(answer, models, h, now, last)
  {
  }

  // CleanupExpiredQuotas on one entry.
  function Cleaned(r: Registration, now: int): Registration {
    r.(quotaExceeded := map c | c in r.quotaExceeded && now < r.quotaExceeded[c] + QUOTA_WINDOW :: r.quotaExceeded[c])
  }

  // Cleaning up is invisible: no answer changes, now or later.
  lemma CleanupInvisible(r: Registration, now: int, later: int)
    requires now <= later
    ensures ActiveMarks(Cleaned(r, now).quotaExceeded, later) == ActiveMarks(r.quotaExceeded, later)
    ensures Available(Cleaned(r, now), later) <==> Available(r, later)
    ensures ModelCount(Some(Cleaned(r, now)), later) == ModelCount(Some(r), later)
  {
    assert ActiveMarks(Cleaned(r, now).quotaExceeded, later) == ActiveMarks(r.quotaExceeded, later);
  }
}
