/**
 * Copying a callgent between a tenant and the hub
 * (src/callgent-hub/callgent-hub.service.ts).  The copy gets its own security
 * realms, and every security requirement is rewritten to name them.
 */
module HubFork {
  import opened Common
  import Ids

  /** One requirement of an and-group. */
  datatype Item = Item(realmPk: nat, scopes: seq<string>, attach: bool)

  /** An and-group is an object of items, by key. */
  type AndGroup = map<string, Item>

  /** An or-list of and-groups, or none at all. */
  type Securities = Option<seq<AndGroup>>

  type Renaming = map<nat, nat>

  /** The key is derived from the scheme and the name whenever a realm is created. */
  datatype Realm = Realm(
    callgentId: string, tenant: int, realmKey: string, scheme: string, name: string, secret: Option<string>)

  /** How a realm's auth processor derives the key. */
  type KeyOf = (string, string) -> string

  function DerivedKey(realm: Realm, keyOf: KeyOf): string {
    keyOf(realm.scheme, realm.name)
  }

  datatype Endpoint = Endpoint(name: string, securities: Securities)

  datatype Entry = Entry(name: string, callgentId: string, tenant: int, securities: Securities, endpoints: seq<Endpoint>)

  /** The property name of a realm's primary key. */
  function PkKey(pk: nat): string {
    Ids.Decimal(pk)
  }

  /** Every item names one of these realms. */
  ghost predicate Known(g: AndGroup, pks: set<nat>) {
    forall k :: k in g ==> g[k].realmPk in pks
  }

  ghost predicate AllKnown(s: Securities, pks: set<nat>) {
    s.Some? ==> forall g :: g in s.value ==> Known(g, pks)
  }

  ghost predicate EndpointsKnown(eps: seq<Endpoint>, pks: set<nat>) {
    forall i :: 0 <= i < |eps| ==> AllKnown(eps[i].securities, pks)
  }

  ghost predicate EntryKnown(e: Entry, pks: set<nat>) {
    AllKnown(e.securities, pks) && EndpointsKnown(e.endpoints, pks)
  }

  /** The item with the new realm, its scopes and its attachment kept. */
  ghost predicate SameItemFor(it: Item, it': Item, m: Renaming) {
    it.realmPk in m && it'.realmPk == m[it.realmPk] && it'.scopes == it.scopes && it'.attach == it.attach
  }

  /** Every item of the copy is an item of the original under the new realm, and every item has its place. */
  ghost predicate RenamedGroup(g: AndGroup, g': AndGroup, m: Renaming) {
    && Known(g, m.Keys)
    && (forall k :: k in g ==> PkKey(m[g[k].realmPk]) in g')
    && (forall k' :: k' in g' ==> exists k :: k in g && k' == PkKey(m[g[k].realmPk]) && SameItemFor(g[k], g'[k'], m))
  }

  ghost predicate Renamed(s: Securities, s': Securities, m: Renaming) {
    if s.None? then s'.None?
    else s'.Some? && |s'.value| == |s.value| && forall i :: 0 <= i < |s.value| ==> RenamedGroup(s.value[i], s'.value[i], m)
  }

  /** Each item of the copy stands under the decimal text of its realm's primary key. */
  lemma KeysNameTheirRealms(g: AndGroup, g': AndGroup, m: Renaming)
    requires RenamedGroup(g, g', m)
    ensures forall k' :: k' in g' ==>
              (forall i :: 0 <= i < |k'| ==> Ids.IsDigit(k'[i])) && Ids.Value(k') == g'[k'].realmPk
  {
    forall k' | k' in g'
      ensures (forall i :: 0 <= i < |k'| ==> Ids.IsDigit(k'[i])) && Ids.Value(k') == g'[k'].realmPk
    {
      Ids.DecimalReads(g'[k'].realmPk);
    }
  }

  /** One and-group; an item of an unknown realm throws. */
  method DupGroup(g: AndGroup, m: Renaming) returns (ret: AndGroup, threw: bool)
    ensures threw <==> !Known(g, m.Keys)
    ensures !threw ==> RenamedGroup(g, ret, m)
    ensures !threw ==> forall k' :: k' in ret ==>
              exists k :: k in g && ret[k'] == Item(m[g[k].realmPk], g[k].scopes, g[k].attach)
  {
    ret, threw := map[], false;
    var rest := g.Keys;
    while rest != {}
      invariant rest <= g.Keys
      invariant forall k :: k in g && k !in rest ==> g[k].realmPk in m && PkKey(m[g[k].realmPk]) in ret
      invariant forall k' :: k' in ret ==>
                  exists k :: k in g && k !in rest && g[k].realmPk in m &&
                              k' == PkKey(m[g[k].realmPk]) && SameItemFor(g[k], ret[k'], m)
    {
      var k :| k in rest;
      var item := g[k];
      if item.realmPk !in m {
        return map[], true;
      }
      ret := ret[PkKey(m[item.realmPk]) := item.(realmPk := m[item.realmPk])];
      rest := rest - {k};
    }
  }

  method DupSecurities(securities: Securities, m: Renaming) returns (r: Securities, threw: bool)
    ensures threw <==> !AllKnown(securities, m.Keys)
    ensures !threw ==> Renamed(securities, r, m)
  {
    threw := false;
    if securities.None? {
      return None, false;
    }
    var list := securities.value;
    var copies: seq<AndGroup> := [];
    for i := 0 to |list|
      invariant |copies| == i
      invariant forall j :: 0 <= j < i ==> Known(list[j], m.Keys) && RenamedGroup(list[j], copies[j], m)
    {
      var ret, bad := DupGroup(list[i], m);
      if bad {
        assert list[i] in list;
        return None, true;
      }
      copies := copies + [ret];
    }
    return Some(copies), false;
  }

  // ------------------------------------------------------- meaning is preserved

  /** A credential store answers whether a realm is satisfied with given scopes. */
  type Granted = (nat, seq<string>) -> bool

  /** Some and-group has all its items granted; no list at all asks for nothing. */
  ghost predicate Passes(s: Securities, granted: Granted) {
    s.None? || s.value == [] || exists i :: 0 <= i < |s.value| && GroupPasses(s.value[i], granted)
  }

  ghost predicate GroupPasses(g: AndGroup, granted: Granted) {
    forall k :: k in g ==> granted(g[k].realmPk, g[k].scopes)
  }

  ghost predicate Injective(m: Renaming) {
    forall p, q :: p in m && q in m && m[p] == m[q] ==> p == q
  }

  /** No realm occurs twice in the group. */
  ghost predicate OneItemPerRealm(g: AndGroup) {
    forall k, l :: k in g && l in g && g[k].realmPk == g[l].realmPk ==> k == l
  }

  lemma GroupMeaning(g: AndGroup, g': AndGroup, m: Renaming, granted: Granted)
    requires Injective(m) && RenamedGroup(g, g', m) && OneItemPerRealm(g)
    ensures GroupPasses(g', granted) <==> GroupPasses(g, (p, sc) => p in m && granted(m[p], sc))
  {
    var before: Granted := (p, sc) => p in m && granted(m[p], sc);
    if GroupPasses(g', granted) {
      forall k | k in g
        ensures before(g[k].realmPk, g[k].scopes)
      {
        var k' := PkKey(m[g[k].realmPk]);
        var l :| l in g && k' == PkKey(m[g[l].realmPk]) && SameItemFor(g[l], g'[k'], m);
        Ids.DecimalInjective(m[g[k].realmPk], m[g[l].realmPk]);
        assert l == k;
      }
    }
    if GroupPasses(g, before) {
      forall k' | k' in g'
        ensures granted(g'[k'].realmPk, g'[k'].scopes)
      {
        var k :| k in g && k' == PkKey(m[g[k].realmPk]) && SameItemFor(g[k], g'[k'], m);
        assert before(g[k].realmPk, g[k].scopes);
      }
    }
  }

  /**
   * The copy lets exactly those callers pass that the original would, when each
   * new realm grants what the old one did.
   */
  lemma MeaningPreserved(s: Securities, s': Securities, m: Renaming, granted: Granted)
    requires Injective(m) && Renamed(s, s', m)
    requires s.Some? ==> forall g :: g in s.value ==> OneItemPerRealm(g)
    ensures Passes(s', granted) <==> Passes(s, (p, sc) => p in m && granted(m[p], sc))
  {
    if s.Some? {
      forall i | 0 <= i < |s.value|
        ensures GroupPasses(s'.value[i], granted) <==> GroupPasses(s.value[i], (p, sc) => p in m && granted(m[p], sc))
      {
        GroupMeaning(s.value[i], s'.value[i], m, granted);
      }
    }
  }

  /** A realm without a secret is disabled and grants nothing. */
  ghost predicate NeedsSecrets(granted: Granted, realms: map<nat, Realm>) {
    forall pk, scopes :: granted(pk, scopes) ==> pk in realms && realms[pk].secret.Some?
  }

  /** No or-list, an empty one, or one with an empty and-group. */
  ghost predicate AsksNothing(s: Securities) {
    s.None? || s.value == [] || exists i :: 0 <= i < |s.value| && s.value[i] == map[]
  }

  /** As the realms are, the copied entry and its endpoints let somebody pass exactly where the original asks nothing. */
  ghost predicate ClosedUntilSecrets(e: Entry, e': Entry, realms: map<nat, Realm>)
    requires |e'.endpoints| == |e.endpoints|
  {
    forall granted: Granted :: NeedsSecrets(granted, realms) ==>
      && (Passes(e'.securities, granted) <==> AsksNothing(e.securities))
      && forall i :: 0 <= i < |e.endpoints| ==>
           (Passes(e'.endpoints[i].securities, granted) <==> AsksNothing(e.endpoints[i].securities))
  }

  /**
   * Until the new realms get their secrets, the copy lets somebody pass exactly
   * where nothing is asked.
   */
  lemma FreshCopyPassesIff(s: Securities, s': Securities, m: Renaming, realms: map<nat, Realm>, granted: Granted)
    requires Renamed(s, s', m)
    requires forall p :: p in m ==> m[p] in realms && realms[m[p]].secret.None?
    requires NeedsSecrets(granted, realms)
    ensures Passes(s', granted) <==> AsksNothing(s)
  {
    if s.Some? {
      forall i | 0 <= i < |s.value|
        ensures GroupPasses(s'.value[i], granted) <==> s.value[i] == map[]
      {
        var g, g' := s.value[i], s'.value[i];
        assert RenamedGroup(g, g', m);
        if g != map[] {
          var k :| k in g;
          var k' := PkKey(m[g[k].realmPk]);
          assert k' in g' && g'[k'].realmPk in m.Values;
        }
      }
    }
  }

  function NewKeys(ks: set<string>, g: AndGroup, m: Renaming): set<string>
    requires ks <= g.Keys && forall k :: k in g ==> g[k].realmPk in m
  {
    set k | k in ks :: PkKey(m[g[k].realmPk])
  }

  lemma {:induction false} NewKeysShrink(ks: set<string>, g: AndGroup, m: Renaming)
    requires Known(g, m.Keys) && ks <= g.Keys
    ensures |NewKeys(ks, g, m)| <= |ks|
    decreases ks
  {
    if ks != {} {
      var x :| x in ks;
      NewKeysShrink(ks - {x}, g, m);
      assert NewKeys(ks, g, m) == NewKeys(ks - {x}, g, m) + {PkKey(m[g[x].realmPk])};
      assert |ks| == |ks - {x}| + 1;
    }
  }

  lemma {:induction false} NewKeysKeep(ks: set<string>, g: AndGroup, m: Renaming)
    requires Known(g, m.Keys) && ks <= g.Keys && Injective(m) && OneItemPerRealm(g)
    ensures |NewKeys(ks, g, m)| == |ks|
    decreases ks
  {
    if ks != {} {
      var x :| x in ks;
      var y := PkKey(m[g[x].realmPk]);
      var small := NewKeys(ks - {x}, g, m);
      NewKeysKeep(ks - {x}, g, m);
      assert NewKeys(ks, g, m) == small + {y};
      forall l | l in ks - {x}
        ensures PkKey(m[g[l].realmPk]) != y
      {
        Ids.DecimalInjective(m[g[x].realmPk], m[g[l].realmPk]);
      }
      assert y !in small;
      assert |ks| == |ks - {x}| + 1;
    }
  }

  /** An and-group keeps all its items exactly when no realm occurs twice in it. */
  lemma NoCollapseIff(g: AndGroup, g': AndGroup, m: Renaming)
    requires Injective(m) && RenamedGroup(g, g', m)
    ensures |g'| == |g| <==> OneItemPerRealm(g)
  {
    assert g'.Keys == NewKeys(g.Keys, g, m);
    assert |g.Keys| == |g| && |g'.Keys| == |g'|;
    if OneItemPerRealm(g) {
      NewKeysKeep(g.Keys, g, m);
    } else {
      var k, l :| k in g && l in g && g[k].realmPk == g[l].realmPk && k != l;
      TwoCollapse(g, m, k, l);
    }
  }

  /** Two items of one realm end under one key. */
  lemma TwoCollapse(g: AndGroup, m: Renaming, k: string, l: string)
    requires Known(g, m.Keys) && k in g && l in g && k != l && g[k].realmPk == g[l].realmPk
    ensures |NewKeys(g.Keys, g, m)| < |g.Keys|
  {
    var rest := g.Keys - {l};
    NewKeysShrink(rest, g, m);
    var y := PkKey(m[g[l].realmPk]);
    assert k in rest && y in NewKeys(rest, g, m);
    assert g.Keys == rest + {l};
    assert NewKeys(g.Keys, g, m) == NewKeys(rest, g, m) + {y};
    assert NewKeys(g.Keys, g, m) == NewKeys(rest, g, m);
    assert |g.Keys| == |rest| + 1;
  }

  // ------------------------------------------------------------------ the copy

  function EntriesOf(entries: seq<Entry>, callgentId: string, tenant: int): (r: seq<Entry>)
    ensures forall e :: e in r <==> e in entries && e.callgentId == callgentId && e.tenant == tenant
  {
    if entries == [] then []
    else
      var rest := EntriesOf(entries[1..], callgentId, tenant);
      if entries[0].callgentId == callgentId && entries[0].tenant == tenant then [entries[0]] + rest else rest
  }

  /** The copy of an entry: its own callgent and tenant, its requirements renamed, its endpoints likewise. */
  ghost predicate CopiedEntry(e: Entry, e': Entry, callgentId: string, tenant: int, m: Renaming) {
    && e'.name == e.name && e'.callgentId == callgentId && e'.tenant == tenant
    && Renamed(e.securities, e'.securities, m)
    && |e'.endpoints| == |e.endpoints|
    && forall i :: 0 <= i < |e.endpoints| ==>
         e'.endpoints[i].name == e.endpoints[i].name && Renamed(e.endpoints[i].securities, e'.endpoints[i].securities, m)
  }

  ghost predicate CopiedEntries(source: seq<Entry>, copies: seq<Entry>, callgentId: string, tenant: int, m: Renaming) {
    |copies| == |source| && forall i :: 0 <= i < |source| ==> CopiedEntry(source[i], copies[i], callgentId, tenant, m)
  }

  /** Every requirement names a realm of this callgent in this tenant. */
  ghost predicate RefersTo(s: Securities, realms: map<nat, Realm>, callgentId: string, tenant: int) {
    s.Some? ==> forall i, k :: 0 <= i < |s.value| && k in s.value[i] ==>
      var pk := s.value[i][k].realmPk; pk in realms && realms[pk].callgentId == callgentId && realms[pk].tenant == tenant
  }

  lemma RenamedRefers(s: Securities, s': Securities, m: Renaming, realms: map<nat, Realm>, callgentId: string, tenant: int)
    requires Renamed(s, s', m)
    requires forall p :: p in m ==> m[p] in realms && realms[m[p]].callgentId == callgentId && realms[m[p]].tenant == tenant
    ensures RefersTo(s', realms, callgentId, tenant)
  {
    if s'.Some? {
      forall i, k' | 0 <= i < |s'.value| && k' in s'.value[i]
        ensures s'.value[i][k'].realmPk in m.Values
      {
        assert RenamedGroup(s.value[i], s'.value[i], m);
        var k :| k in s.value[i] && k' == PkKey(m[s.value[i][k].realmPk]) && SameItemFor(s.value[i][k], s'.value[i][k'], m);
      }
    }
  }

  ghost predicate EntryRefersTo(e: Entry, realms: map<nat, Realm>, callgentId: string, tenant: int) {
    && RefersTo(e.securities, realms, callgentId, tenant)
    && forall i :: 0 <= i < |e.endpoints| ==> RefersTo(e.endpoints[i].securities, realms, callgentId, tenant)
  }

  lemma CopiedRefers(e: Entry, e': Entry, m: Renaming, realms: map<nat, Realm>, callgentId: string, tenant: int)
    requires CopiedEntry(e, e', callgentId, tenant, m)
    requires forall p :: p in m ==> m[p] in realms && realms[m[p]].callgentId == callgentId && realms[m[p]].tenant == tenant
    ensures EntryRefersTo(e', realms, callgentId, tenant)
  {
    RenamedRefers(e.securities, e'.securities, m, realms, callgentId, tenant);
    forall i | 0 <= i < |e'.endpoints|
      ensures RefersTo(e'.endpoints[i].securities, realms, callgentId, tenant)
    {
      RenamedRefers(e.endpoints[i].securities, e'.endpoints[i].securities, m, realms, callgentId, tenant);
    }
  }

  /** The unique index on callgent and realm key. */
  predicate SameIndex(a: Realm, b: Realm) {
    a.callgentId == b.callgentId && a.realmKey == b.realmKey
  }

  ghost predicate Taken(realms: map<nat, Realm>, callgentId: string, key: string) {
    exists p :: p in realms && realms[p].callgentId == callgentId && realms[p].realmKey == key
  }

  /** The realms of a callgent that the tenant sees. */
  function RealmsOf(realms: map<nat, Realm>, callgentId: string, tenant: int): (r: set<nat>)
    ensures r <= realms.Keys
  {
    set pk | pk in realms && realms[pk].callgentId == callgentId && realms[pk].tenant == tenant
  }

  /** A derived key is in use already, or two of the realms derive the same one. */
  ghost predicate Clash(realms: map<nat, Realm>, pks: set<nat>, callgentId: string, keyOf: KeyOf)
    requires pks <= realms.Keys
  {
    || (exists p :: p in pks && Taken(realms, callgentId, DerivedKey(realms[p], keyOf)))
    || (exists p, q :: p in pks && q in pks && p != q && DerivedKey(realms[p], keyOf) == DerivedKey(realms[q], keyOf))
  }

  /** A copied realm: its key is derived anew, its secret stays behind. */
  ghost predicate IsCopyOf(copy: Realm, realm: Realm, callgentId: string, tenant: int, keyOf: KeyOf) {
    && copy.callgentId == callgentId && copy.tenant == tenant
    && copy.scheme == realm.scheme && copy.name == realm.name
    && copy.realmKey == keyOf(realm.scheme, realm.name)
    && copy.secret.None?
  }

  /** The old rows and, under fresh primary keys, one copy for each row that `m` renames. */
  ghost predicate CopiedRealms(source: map<nat, Realm>, m: Renaming, realms: map<nat, Realm>,
                               callgentId: string, tenant: int, keyOf: KeyOf) {
    && m.Keys <= source.Keys && Injective(m)
    && realms.Keys == source.Keys + m.Values
    && (forall pk :: pk in source ==> realms[pk] == source[pk])
    && forall pk :: pk in m ==>
         m[pk] !in source && IsCopyOf(realms[m[pk]], source[pk], callgentId, tenant, keyOf)
  }

  /** A key is in use exactly if it was before the copy or a copied realm derives it. */
  lemma TakenIff(source: map<nat, Realm>, m: Renaming, realms: map<nat, Realm>,
                 callgentId: string, tenant: int, keyOf: KeyOf, key: string)
    requires CopiedRealms(source, m, realms, callgentId, tenant, keyOf)
    ensures Taken(realms, callgentId, key) <==>
            Taken(source, callgentId, key) || exists p :: p in m && DerivedKey(source[p], keyOf) == key
  {
    if p :| p in m && DerivedKey(source[p], keyOf) == key {
      assert m[p] in realms && realms[m[p]].realmKey == key;
    }
    if p :| p in source && source[p].callgentId == callgentId && source[p].realmKey == key {
      assert p in realms;
    }
  }

  /** One more realm is copied. */
  lemma CopyStep(source: map<nat, Realm>, m: Renaming, realms: map<nat, Realm>,
                 callgentId: string, tenant: int, keyOf: KeyOf, pk: nat, newPk: nat, copy: Realm)
    requires CopiedRealms(source, m, realms, callgentId, tenant, keyOf)
    requires pk in source && pk !in m && newPk !in realms && IsCopyOf(copy, source[pk], callgentId, tenant, keyOf)
    ensures CopiedRealms(source, m[pk := newPk], realms[newPk := copy], callgentId, tenant, keyOf)
  {
    var m' := m[pk := newPk];
    assert forall p :: p in m ==> m[p] in m.Values;
    assert m'.Values == m.Values + {newPk} by {
      forall v | v in m.Values + {newPk} ensures v in m'.Values {
        if v != newPk {
          var p :| p in m && m[p] == v;
          assert p in m' && m'[p] == v;
        } else {
          assert pk in m' && m'[pk] == v;
        }
      }
    }
  }

  /** One more key that is free causes no clash. */
  lemma ClashStep(realms: map<nat, Realm>, pks: set<nat>, callgentId: string, keyOf: KeyOf, pk: nat)
    requires pks <= realms.Keys && pk in realms && pk !in pks
    ensures Clash(realms, pks + {pk}, callgentId, keyOf) <==>
            || Clash(realms, pks, callgentId, keyOf)
            || Taken(realms, callgentId, DerivedKey(realms[pk], keyOf))
            || exists p :: p in pks && DerivedKey(realms[p], keyOf) == DerivedKey(realms[pk], keyOf)
  {
    assert pk in pks + {pk};
  }

  /** Fewer realms clash less. */
  lemma ClashGrows(realms: map<nat, Realm>, pks: set<nat>, all: set<nat>, callgentId: string, keyOf: KeyOf)
    requires pks <= all <= realms.Keys && Clash(realms, pks, callgentId, keyOf)
    ensures Clash(realms, all, callgentId, keyOf)
  {
  }

  /**
   * When the copy fails: no such source, a failing call, realm keys that clash, or
   * a requirement that names a realm which is not the source's.
   */
  ghost predicate Fails(realms: map<nat, Realm>, entries: seq<Entry>, fromId: string, callgentId: string,
                        fromTenant: int, keyOf: KeyOf, found: bool, fault: nat)
  {
    var pks := RealmsOf(realms, fromId, fromTenant);
    var source := EntriesOf(entries, fromId, fromTenant);
    || !found || 1 <= fault <= 6
    || Clash(realms, pks, callgentId, keyOf)
    || exists i :: 0 <= i < |source| && !EntryKnown(source[i], pks)
  }

  /**
   * The new realms, field by field: one for each realm of the source in its
   * tenant, with its scheme and name, a key derived from these, and no secret.
   */
  ghost predicate FreshRealms(before: map<nat, Realm>, fromId: string, fromTenant: int, m: Renaming,
                              realms: map<nat, Realm>, callgentId: string, tenant: int, keyOf: KeyOf) {
    && (forall p :: p in m <==> p in before && before[p].callgentId == fromId && before[p].tenant == fromTenant)
    && forall p :: p in m ==>
         && m[p] in realms && m[p] !in before
         && var old', new' := before[p], realms[m[p]];
            && new'.secret == None
            && new'.scheme == old'.scheme && new'.name == old'.name && new'.realmKey == keyOf(old'.scheme, old'.name)
            && new'.callgentId == callgentId && new'.tenant == tenant
  }

  lemma CopiedAreFresh(before: map<nat, Realm>, fromId: string, fromTenant: int, m: Renaming,
                       realms: map<nat, Realm>, callgentId: string, tenant: int, keyOf: KeyOf)
    requires CopiedRealms(before, m, realms, callgentId, tenant, keyOf) && m.Keys == RealmsOf(before, fromId, fromTenant)
    ensures FreshRealms(before, fromId, fromTenant, m, realms, callgentId, tenant, keyOf)
  {
    assert forall p :: p in m ==> m[p] in m.Values;
  }

  /** The new entries name realms of the new callgent only, and until these have secrets nobody passes who is asked for anything. */
  ghost predicate FreshEntries(source: seq<Entry>, copies: seq<Entry>, realms: map<nat, Realm>, callgentId: string, tenant: int) {
    && |copies| == |source|
    && forall i :: 0 <= i < |source| ==>
         && copies[i].name == source[i].name && copies[i].callgentId == callgentId && copies[i].tenant == tenant
         && EntryRefersTo(copies[i], realms, callgentId, tenant)
         && |copies[i].endpoints| == |source[i].endpoints|
         && ClosedUntilSecrets(source[i], copies[i], realms)
  }

  lemma FreshEntriesFrom(source: seq<Entry>, copies: seq<Entry>, m: Renaming, realms: map<nat, Realm>,
                         callgentId: string, tenant: int)
    requires CopiedEntries(source, copies, callgentId, tenant, m)
    requires forall p :: p in m ==>
               m[p] in realms && realms[m[p]].callgentId == callgentId && realms[m[p]].tenant == tenant
               && realms[m[p]].secret.None?
    ensures FreshEntries(source, copies, realms, callgentId, tenant)
  {
    forall i | 0 <= i < |source|
      ensures EntryRefersTo(copies[i], realms, callgentId, tenant)
      ensures |copies[i].endpoints| == |source[i].endpoints| && ClosedUntilSecrets(source[i], copies[i], realms)
    {
      CopiedRefers(source[i], copies[i], m, realms, callgentId, tenant);
      FreshEntryIsClosed(source[i], copies[i], m, realms, callgentId, tenant);
    }
  }

  lemma FreshEntryIsClosed(e: Entry, e': Entry, m: Renaming, realms: map<nat, Realm>, callgentId: string, tenant: int)
    requires CopiedEntry(e, e', callgentId, tenant, m)
    requires forall p :: p in m ==> m[p] in realms && realms[m[p]].secret.None?
    ensures ClosedUntilSecrets(e, e', realms)
  {
    forall granted: Granted | NeedsSecrets(granted, realms)
      ensures Passes(e'.securities, granted) <==> AsksNothing(e.securities)
      ensures forall i :: 0 <= i < |e.endpoints| ==>
                (Passes(e'.endpoints[i].securities, granted) <==> AsksNothing(e.endpoints[i].securities))
    {
      FreshCopyPassesIff(e.securities, e'.securities, m, realms, granted);
      forall i | 0 <= i < |e.endpoints|
        ensures Passes(e'.endpoints[i].securities, granted) <==> AsksNothing(e.endpoints[i].securities)
      {
        FreshCopyPassesIff(e.endpoints[i].securities, e'.endpoints[i].securities, m, realms, granted);
      }
    }
  }

  class Hub {
    /** The tenant of the running request. */
    var tenant: int
    var realms: map<nat, Realm>
    /** Every primary key in use is smaller. */
    var nextPk: nat
    var entries: seq<Entry>

    ghost predicate Valid()
      reads this
    {
      && (forall pk :: pk in realms ==> pk < nextPk)
      && (forall p, q :: p in realms && q in realms && p != q ==> !SameIndex(realms[p], realms[q]))
    }

    constructor (tenant: int)
      ensures Valid() && this.tenant == tenant
    {
      this.tenant, realms, nextPk, entries := tenant, map[], 1, [];
    }

    /** The row is inserted under the next primary key unless the unique index refuses it. */
    method CreateRealm(realm: Realm) returns (pk: nat, threw: bool)
      requires Valid()
      modifies this`realms, this`nextPk
      ensures Valid() && pk == old(nextPk)
      ensures threw <==> Taken(old(realms), realm.callgentId, realm.realmKey)
      ensures threw ==> realms == old(realms) && nextPk == old(nextPk)
      ensures !threw ==> realms == old(realms)[pk := realm] && nextPk == pk + 1
    {
      pk, threw := nextPk, exists p :: p in realms && SameIndex(realms[p], realm);
      if !threw {
        realms := realms[pk := realm];
        nextPk := pk + 1;
      }
    }

    /** One realm copied on the way, with the keys of the copies so far free of clashes. */
    method CopyRealm(source: map<nat, Realm>, m: Renaming, pk: nat, callgentId: string, keyOf: KeyOf)
      returns (m': Renaming, threw: bool)
      requires Valid() && CopiedRealms(source, m, realms, callgentId, tenant, keyOf)
      requires pk in source && pk !in m && !Clash(source, m.Keys, callgentId, keyOf)
      modifies this`realms, this`nextPk
      ensures Valid() && nextPk >= old(nextPk) && CopiedRealms(source, m', realms, callgentId, tenant, keyOf)
      ensures threw <==> Clash(source, m.Keys + {pk}, callgentId, keyOf)
      ensures m'.Keys == if threw then m.Keys else m.Keys + {pk}
    {
      var key := DerivedKey(source[pk], keyOf);
      assert Taken(realms, callgentId, key) <==> Clash(source, m.Keys + {pk}, callgentId, keyOf) by {
        TakenIff(source, m, realms, callgentId, tenant, keyOf, key);
        ClashStep(source, m.Keys, callgentId, keyOf, pk);
      }
      ghost var before := realms;
      var newPk;
      var copy := Realm(callgentId, tenant, key, source[pk].scheme, source[pk].name, None);
      newPk, threw := CreateRealm(copy);
      m' := if threw then m else m[pk := newPk];
      assert CopiedRealms(source, m', realms, callgentId, tenant, keyOf) by {
        if !threw {
          CopyStep(source, m, before, callgentId, tenant, keyOf, pk, newPk, copy);
        }
      }
    }

    /**
     * Copy the realms of a callgent, in any order, under new primary keys of the
     * current tenant; `keyOf` derives a realm's key.
     */
    method CopyRealms(fromId: string, fromTenant: int, callgentId: string, keyOf: KeyOf)
      returns (m: Renaming, threw: bool)
      requires Valid()
      modifies this`realms, this`nextPk
      ensures Valid() && nextPk >= old(nextPk)
      ensures threw <==> Clash(old(realms), RealmsOf(old(realms), fromId, fromTenant), callgentId, keyOf)
      ensures !threw ==> m.Keys == RealmsOf(old(realms), fromId, fromTenant)
      ensures CopiedRealms(old(realms), m, realms, callgentId, tenant, keyOf)
      ensures !threw ==> FreshRealms(old(realms), fromId, fromTenant, m, realms, callgentId, tenant, keyOf)
    {
      m, threw := map[], false;
      var source := realms;
      var all := RealmsOf(source, fromId, fromTenant);
      var rest := all;
      while rest != {}
        invariant !threw && rest <= all && Valid() && nextPk >= old(nextPk)
        invariant m.Keys == all - rest
        invariant CopiedRealms(source, m, realms, callgentId, tenant, keyOf)
        invariant !Clash(source, m.Keys, callgentId, keyOf)
      {
        var pk :| pk in rest;
        assert m.Keys + {pk} == all - (rest - {pk});
        m, threw := CopyRealm(source, m, pk, callgentId, keyOf);
        if threw {
          ClashGrows(source, m.Keys + {pk}, all, callgentId, keyOf);
          return;
        }
        rest := rest - {pk};
      }
      assert m.Keys == all;
      CopiedAreFresh(source, fromId, fromTenant, m, realms, callgentId, tenant, keyOf);
    }

    method CopyEndpoints(eps: seq<Endpoint>, m: Renaming) returns (copies: seq<Endpoint>, threw: bool)
      ensures threw <==> !EndpointsKnown(eps, m.Keys)
      ensures !threw ==> |copies| == |eps|
      ensures !threw ==> forall i :: 0 <= i < |eps| ==>
                copies[i].name == eps[i].name && Renamed(eps[i].securities, copies[i].securities, m)
    {
      copies, threw := [], false;
      for i := 0 to |eps|
        invariant |copies| == i
        invariant forall j :: 0 <= j < i ==> AllKnown(eps[j].securities, m.Keys)
        invariant forall j :: 0 <= j < i ==>
                    copies[j].name == eps[j].name && Renamed(eps[j].securities, copies[j].securities, m)
      {
        var s, bad := DupSecurities(eps[i].securities, m);
        if bad {
          return [], true;
        }
        copies := copies + [Endpoint(eps[i].name, s)];
      }
    }

    /** The entries with their endpoints, under the current tenant. */
    method CopyEntries(source: seq<Entry>, callgentId: string, m: Renaming) returns (copies: seq<Entry>, threw: bool)
      ensures threw <==> exists i :: 0 <= i < |source| && !EntryKnown(source[i], m.Keys)
      ensures !threw ==> CopiedEntries(source, copies, callgentId, tenant, m)
    {
      copies, threw := [], false;
      for i := 0 to |source|
        invariant |copies| == i
        invariant forall j :: 0 <= j < i ==> EntryKnown(source[j], m.Keys)
        invariant forall j :: 0 <= j < i ==> CopiedEntry(source[j], copies[j], callgentId, tenant, m)
      {
        var s, bad := DupSecurities(source[i].securities, m);
        if bad {
          return [], true;
        }
        var eps, bad' := CopyEndpoints(source[i].endpoints, m);
        if bad' {
          return [], true;
        }
        copies := copies + [Entry(source[i].name, callgentId, tenant, s, eps)];
      }
    }

    /**
     * The body of the copy.  `found` says whether the source exists, `fault` which
     * of the awaited calls throws, if any.
     */
    method CopyTables(fromId: string, callgentId: string, fromTenant: int, toTenant: int, keyOf: KeyOf,
                      found: bool, fault: nat)
      returns (threw: bool, m: Renaming)
      requires Valid()
      modifies this
      ensures Valid()
      ensures threw <==> Fails(old(realms), old(entries), fromId, callgentId, fromTenant, keyOf, found, fault)
      ensures !threw ==>
        && m.Keys == RealmsOf(old(realms), fromId, fromTenant)
        && CopiedRealms(old(realms), m, realms, callgentId, toTenant, keyOf)
        && |entries| >= |old(entries)| && entries[..|old(entries)|] == old(entries)
        && CopiedEntries(EntriesOf(old(entries), fromId, fromTenant), entries[|old(entries)|..], callgentId, toTenant, m)
    {
      m := map[];
      tenant := fromTenant;
      if fault == 1 || !found {
        return true, m;
      }
      var source := EntriesOf(entries, fromId, tenant);
      tenant := toTenant;
      if fault == 2 {
        return true, m;
      }
      tenant := fromTenant;
      if fault == 3 {
        return true, m;
      }
      tenant := toTenant;
      m, threw := CopyRealms(fromId, fromTenant, callgentId, keyOf);
      if threw || fault == 4 {
        return true, m;
      }
      tenant := fromTenant;
      if fault == 5 {
        return true, m;
      }
      tenant := toTenant;
      var copies;
      copies, threw := CopyEntries(source, callgentId, m);
      if threw || fault == 6 {
        return true, m;
      }
      ghost var n := |entries|;
      entries := entries + copies;
      assert entries[n..] == copies;
    }

    /** As one transaction: a failure rolls the tables back. */
    method CopyAll(fromId: string, callgentId: string, fromTenant: int, toTenant: int, keyOf: KeyOf,
                   found: bool, fault: nat)
      returns (threw: bool, m: Renaming)
      requires Valid()
      modifies this
      ensures Valid()
      ensures threw <==> Fails(old(realms), old(entries), fromId, callgentId, fromTenant, keyOf, found, fault)
      ensures threw ==> realms == old(realms) && entries == old(entries) && nextPk == old(nextPk)
      ensures !threw ==>
        && m.Keys == RealmsOf(old(realms), fromId, fromTenant)
        && CopiedRealms(old(realms), m, realms, callgentId, toTenant, keyOf)
        && |entries| >= |old(entries)| && entries[..|old(entries)|] == old(entries)
        && CopiedEntries(EntriesOf(old(entries), fromId, fromTenant), entries[|old(entries)|..], callgentId, toTenant, m)
      ensures !threw ==> FreshRealms(old(realms), fromId, fromTenant, m, realms, callgentId, toTenant, keyOf)
    {
      var realms0, entries0, nextPk0 := realms, entries, nextPk;
      threw, m := CopyTables(fromId, callgentId, fromTenant, toTenant, keyOf, found, fault);
      if threw {
        realms, entries, nextPk := realms0, entries0, nextPk0;
      } else {
        CopiedAreFresh(realms0, fromId, fromTenant, m, realms, callgentId, toTenant, keyOf);
      }
    }

    /**
     * The copy, run in the source's and the target's tenant by turns; on every
     * exit the request is back in its own tenant.  After success, every
     * requirement of the copy is the original's under an injective renaming of
     * realms and names a realm of the new callgent.
     */
    method Duplicate(fromId: string, callgentId: string, fromTenant: int, toTenant: int, keyOf: KeyOf,
                   found: bool, fault: nat)
      returns (threw: bool, m: Renaming)
      requires Valid()
      modifies this
      ensures Valid() && tenant == old(tenant)
      ensures threw <==> Fails(old(realms), old(entries), fromId, callgentId, fromTenant, keyOf, found, fault)
      ensures threw ==> realms == old(realms) && entries == old(entries)
      ensures !threw ==>
        var source := EntriesOf(old(entries), fromId, fromTenant);
        var n := |old(entries)|;
        && m.Keys == RealmsOf(old(realms), fromId, fromTenant)
        && CopiedRealms(old(realms), m, realms, callgentId, toTenant, keyOf)
        && |entries| >= n && entries[..n] == old(entries)
        && CopiedEntries(source, entries[n..], callgentId, toTenant, m)
        && FreshEntries(source, entries[n..], realms, callgentId, toTenant)
      ensures !threw ==> FreshRealms(old(realms), fromId, fromTenant, m, realms, callgentId, toTenant, keyOf)
    {
      var origTenant := tenant;
      threw, m := CopyAll(fromId, callgentId, fromTenant, toTenant, keyOf, found, fault);
      tenant := origTenant;
      if !threw {
        ghost var source := EntriesOf(old(entries), fromId, fromTenant);
        ghost var n := |old(entries)|;
        FreshEntriesFrom(source, entries[n..], m, realms, callgentId, toTenant);
      }
    }
  }
}
