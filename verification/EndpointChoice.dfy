/**
 * Choosing endpoints for a task with an arbitrary language model
 * (`chooseEndpoints` and its three steps in src/agents/script-agent.service.ts,
 * `uniqueBy` of src/infras/libs/utils.ts).  The model's answers are any values
 * that pass the code's own validation.
 */
module EndpointChoice {
  import opened Common

  datatype Endpoint = Endpoint(name: string, id: string)

  /** A purpose the model names; an empty endpoint name is none. */
  datatype Purpose = Purpose(purposeKey: string, epName: string, needExternalAPI: bool)

  /** An answer of the first two steps. */
  datatype Proposal = Proposal(unaddressedAPI: seq<Purpose>, usedEndpoints: seq<Purpose>)

  datatype Candidates = Candidates(needExternalAPI: bool, names: seq<string>)

  datatype Used = Used(purposeKey: string, epName: string)

  datatype Confirmation = Confirmation(purposes: seq<Used>) | MissionImpossible | Crash

  datatype Choice = Chosen(endpoints: map<string, Option<Endpoint>>, purposes: seq<Used>) | Failed(why: Confirmation)

  function Names(eps: seq<Endpoint>): set<string> {
    set e | e in eps :: e.name
  }

  /** The first endpoint of that name. */
  function Find(eps: seq<Endpoint>, name: string): (r: Option<Endpoint>)
    ensures r.Some? ==> r.value in eps && r.value.name == name
    ensures r.Some? <==> name in Names(eps)
    ensures r.Some? ==> exists i :: 0 <= i < |eps| && eps[i] == r.value && forall j :: 0 <= j < i ==> eps[j].name != name
  {
    if eps == [] then None
    else if eps[0].name == name then Some(eps[0])
    else
      assert forall e :: e in eps ==> e == eps[0] || e in eps[1..];
      Find(eps[1..], name)
  }

  /** What the code validates: something was answered, and named endpoints were on offer. */
  predicate Validated(g: Proposal, offered: seq<Endpoint>) {
    && (g.usedEndpoints != [] || g.unaddressedAPI != [])
    && forall p :: p in g.usedEndpoints ==> p.epName == "" || p.epName in Names(offered)
  }

  // ------------------------------------------------------------------ uniqueBy

  function KeysOf(ps: seq<Purpose>): set<string> {
    set p | p in ps :: p.purposeKey
  }

  lemma KeysSnoc(ps: seq<Purpose>, p: Purpose)
    ensures KeysOf(ps + [p]) == KeysOf(ps) + {p.purposeKey}
  {
    assert p in ps + [p];
  }

  /** The elements whose key no earlier element has. */
  function FirstByKey(ps: seq<Purpose>): seq<Purpose> {
    if ps == [] then []
    else
      var p := ps[|ps| - 1];
      var before := ps[..|ps| - 1];
      if p.purposeKey in KeysOf(before) then FirstByKey(before) else FirstByKey(before) + [p]
  }

  method UniqueBy(arr: seq<Purpose>) returns (r: seq<Purpose>)
    ensures r == FirstByKey(arr)
  {
    var seen: set<string> := {};
    r := [];
    for i := 0 to |arr|
      invariant r == FirstByKey(arr[..i]) && seen == KeysOf(arr[..i])
    {
      var x := arr[i];
      assert arr[..i + 1][..i] == arr[..i];
      assert arr[..i + 1] == arr[..i] + [x];
      KeysSnoc(arr[..i], x);
      if x.purposeKey !in seen {
        seen := seen + {x.purposeKey};
        r := r + [x];
      }
    }
    assert arr[..|arr|] == arr;
  }

  ghost predicate DistinctKeys(ps: seq<Purpose>) {
    forall i, j :: 0 <= i < j < |ps| ==> ps[i].purposeKey != ps[j].purposeKey
  }

  lemma {:induction false} FirstByKeySelects(ps: seq<Purpose>)
    ensures forall p :: p in FirstByKey(ps) ==> p in ps
  {
    if ps != [] {
      var n := |ps| - 1;
      FirstByKeySelects(ps[..n]);
      assert ps == ps[..n] + [ps[n]];
    }
  }

  lemma {:induction false} FirstByKeyKeepsKeys(ps: seq<Purpose>)
    ensures KeysOf(FirstByKey(ps)) == KeysOf(ps)
  {
    if ps != [] {
      var n := |ps| - 1;
      FirstByKeyKeepsKeys(ps[..n]);
      assert ps == ps[..n] + [ps[n]];
      KeysSnoc(ps[..n], ps[n]);
      KeysSnoc(FirstByKey(ps[..n]), ps[n]);
    }
  }

  lemma {:induction false} FirstByKeyDistinct(ps: seq<Purpose>)
    ensures DistinctKeys(FirstByKey(ps))
  {
    if ps != [] {
      var before := FirstByKey(ps[..|ps| - 1]);
      FirstByKeyDistinct(ps[..|ps| - 1]);
      FirstByKeySelects(ps[..|ps| - 1]);
      assert forall i :: 0 <= i < |before| ==> before[i] in before && before[i].purposeKey in KeysOf(ps[..|ps| - 1]);
    }
  }

  /** No earlier element has this one's key. */
  ghost predicate FirstOfKey(ps: seq<Purpose>, i: int) {
    0 <= i < |ps| && forall j :: 0 <= j < i ==> ps[j].purposeKey != ps[i].purposeKey
  }

  lemma {:induction false} FirstByKeyKeepsFirst(ps: seq<Purpose>, i: int)
    requires FirstOfKey(ps, i)
    ensures ps[i] in FirstByKey(ps)
  {
    var n := |ps| - 1;
    if i < n {
      FirstByKeyKeepsFirst(ps[..n], i);
    }
  }

  /** `uniqueBy` keeps one element per key, the first one, and loses no key. */
  lemma FirstByKeyIsUnique(ps: seq<Purpose>)
    ensures DistinctKeys(FirstByKey(ps)) && KeysOf(FirstByKey(ps)) == KeysOf(ps)
    ensures forall p :: p in FirstByKey(ps) ==> p in ps
    ensures forall i :: FirstOfKey(ps, i) ==> ps[i] in FirstByKey(ps)
  {
    FirstByKeyDistinct(ps);
    FirstByKeyKeepsKeys(ps);
    FirstByKeySelects(ps);
    forall i | FirstOfKey(ps, i)
      ensures ps[i] in FirstByKey(ps)
    {
      FirstByKeyKeepsFirst(ps, i);
    }
  }

  /** Every element kept is the first of its key. */
  lemma {:induction false} FirstByKeyOrigin(ps: seq<Purpose>, p: Purpose)
    requires p in FirstByKey(ps)
    ensures exists i :: FirstOfKey(ps, i) && ps[i] == p
  {
    var n := |ps| - 1;
    if p in FirstByKey(ps[..n]) {
      FirstByKeyOrigin(ps[..n], p);
      var i :| FirstOfKey(ps[..n], i) && ps[..n][i] == p;
      assert forall j :: 0 <= j < n ==> ps[..n][j] == ps[j];
      assert FirstOfKey(ps, i) && ps[i] == p;
    } else {
      assert p == ps[n] && p.purposeKey !in KeysOf(ps[..n]);
      assert forall j :: 0 <= j < n ==> ps[j] in ps[..n];
      assert FirstOfKey(ps, n);
    }
  }

  lemma {:induction false} EveryKeyHasFirst(ps: seq<Purpose>, key: string)
    requires key in KeysOf(ps)
    ensures exists i :: FirstOfKey(ps, i) && ps[i].purposeKey == key
  {
    FirstByKeyKeepsKeys(ps);
    var p :| p in FirstByKey(ps) && p.purposeKey == key;
    FirstByKeyOrigin(ps, p);
  }

  // ---------------------------------------------------------------- collecting

  /** The endpoint names given for a key, in order. */
  function NamesFor(all: seq<Purpose>, key: string): seq<string> {
    if all == [] then []
    else
      var p := all[|all| - 1];
      var rest := NamesFor(all[..|all| - 1], key);
      if p.purposeKey == key && p.epName != "" then rest + [p.epName] else rest
  }

  function NamedIn(all: seq<Purpose>): set<string> {
    set p | p in all && p.epName != "" :: p.epName
  }

  /** Whether the first purpose of a key needs an external API. */
  function NeedFor(all: seq<Purpose>, key: string): bool {
    if all == [] then false
    else
      var before := all[..|all| - 1];
      if key in KeysOf(before) then NeedFor(before, key)
      else all[|all| - 1].purposeKey == key && all[|all| - 1].needExternalAPI
  }

  lemma {:induction false} NoNamesForOthers(all: seq<Purpose>, key: string)
    requires key !in KeysOf(all)
    ensures NamesFor(all, key) == []
  {
    if all != [] {
      var before := all[..|all| - 1];
      assert forall p :: p in before ==> p in all;
      assert all[|all| - 1] in all;
      NoNamesForOthers(before, key);
    }
  }

  /** The candidates of a key are the names its purposes give, in order, without the empty ones. */
  lemma {:induction false} NamesForIs(all: seq<Purpose>, key: string)
    ensures forall n :: n in NamesFor(all, key) <==> exists p :: p in all && p.purposeKey == key && p.epName == n && n != ""
  {
    if all != [] {
      var k := |all| - 1;
      NamesForIs(all[..k], key);
      assert all == all[..k] + [all[k]];
    }
  }

  /** Whether a key needs an external API is what its first purpose says. */
  lemma {:induction false} NeedOfFirst(all: seq<Purpose>, i: int)
    requires FirstOfKey(all, i)
    ensures NeedFor(all, all[i].purposeKey) == all[i].needExternalAPI
  {
    var n := |all| - 1;
    var before := all[..n];
    if i < n {
      assert before[i] in before;
      NeedOfFirst(before, i);
    } else {
      assert forall p :: p in before ==> exists j :: 0 <= j < n && all[j] == p;
    }
  }

  /** What one more purpose adds. */
  lemma OneMore(before: seq<Purpose>, p: Purpose)
    ensures KeysOf(before + [p]) == KeysOf(before) + {p.purposeKey}
    ensures NamedIn(before + [p]) == NamedIn(before) + if p.epName != "" then {p.epName} else {}
    ensures forall k :: k != p.purposeKey ==>
              NamesFor(before + [p], k) == NamesFor(before, k) && NeedFor(before + [p], k) == NeedFor(before, k)
    ensures NamesFor(before + [p], p.purposeKey) ==
              NamesFor(before, p.purposeKey) + if p.epName != "" then [p.epName] else []
    ensures NeedFor(before + [p], p.purposeKey) ==
              if p.purposeKey in KeysOf(before) then NeedFor(before, p.purposeKey) else p.needExternalAPI
  {
    var now := before + [p];
    assert now[..|now| - 1] == before;
    KeysSnoc(before, p);
    assert p in now;
    forall k | k !in KeysOf(before)
      ensures NeedFor(before, k) == false
    {
      NoNeedForOthers(before, k);
    }
  }

  lemma {:induction false} NoNeedForOthers(all: seq<Purpose>, key: string)
    requires key !in KeysOf(all)
    ensures NeedFor(all, key) == false
  {
    if all != [] {
      assert all[|all| - 1] in all;
      assert forall p :: p in all[..|all| - 1] ==> p in all;
    }
  }

  /** The map holds every purpose with its candidates. */
  ghost predicate Purposed(all: seq<Purpose>, purposesSet: map<string, Candidates>) {
    && purposesSet.Keys == KeysOf(all)
    && forall k :: k in purposesSet ==> purposesSet[k] == Candidates(NeedFor(all, k), NamesFor(all, k))
  }

  /** The map holds every named endpoint, as far as it is offered. */
  ghost predicate Mapped(all: seq<Purpose>, endpoints: seq<Endpoint>, epsMap: map<string, Option<Endpoint>>) {
    && epsMap.Keys == NamedIn(all)
    && forall n :: n in epsMap ==> epsMap[n] == Find(endpoints, n)
  }

  /** The entry of a purpose's key once the purpose is added. */
  function EntryOf(purposesSet: map<string, Candidates>, p: Purpose): Candidates {
    var c := if p.purposeKey in purposesSet then purposesSet[p.purposeKey] else Candidates(p.needExternalAPI, []);
    if p.epName == "" then c else c.(names := c.names + [p.epName])
  }

  lemma PurposeOne(before: seq<Purpose>, p: Purpose, purposesSet: map<string, Candidates>)
    requires Purposed(before, purposesSet)
    ensures Purposed(before + [p], purposesSet[p.purposeKey := EntryOf(purposesSet, p)])
  {
    OneMore(before, p);
    if p.purposeKey !in purposesSet {
      NoNamesForOthers(before, p.purposeKey);
    }
    var c := EntryOf(purposesSet, p);
    assert c.names == NamesFor(before + [p], p.purposeKey);
  }

  lemma MapOne(before: seq<Purpose>, endpoints: seq<Endpoint>, p: Purpose, epsMap: map<string, Option<Endpoint>>)
    requires Mapped(before, endpoints, epsMap)
    ensures Mapped(before + [p], endpoints, if p.epName == "" then epsMap else epsMap[p.epName := Find(endpoints, p.epName)])
  {
    OneMore(before, p);
  }

  /** Fill the two maps from the purposes in order. */
  method Collect(all: seq<Purpose>, endpoints: seq<Endpoint>)
    returns (purposesSet: map<string, Candidates>, epsMap: map<string, Option<Endpoint>>)
    ensures Purposed(all, purposesSet) && Mapped(all, endpoints, epsMap)
  {
    purposesSet, epsMap := map[], map[];
    for i := 0 to |all|
      invariant Purposed(all[..i], purposesSet) && Mapped(all[..i], endpoints, epsMap)
    {
      var p := all[i];
      assert all[..i + 1] == all[..i] + [p];
      PurposeOne(all[..i], p, purposesSet);
      MapOne(all[..i], endpoints, p, epsMap);
      var c := if p.purposeKey in purposesSet then purposesSet[p.purposeKey] else Candidates(p.needExternalAPI, []);
      if p.epName != "" {
        c := c.(names := c.names + [p.epName]);
        epsMap := epsMap[p.epName := Find(endpoints, p.epName)];
      }
      purposesSet := purposesSet[p.purposeKey := c];
    }
    assert all[..|all|] == all;
  }

  // ---------------------------------------------------------------- confirming

  /** Put each purpose into the group of its number of candidates; more than two is out of range. */
  method Group(purposesSet: map<string, Candidates>) returns (g: seq<set<string>>, crash: bool)
    ensures crash <==> exists k :: k in purposesSet && |purposesSet[k].names| > 2
    ensures !crash ==>
      && |g| == 3
      && (forall n :: 0 <= n < 3 ==> g[n] == set k | k in purposesSet && |purposesSet[k].names| == n)
  {
    g, crash := [{}, {}, {}], false;
    var rest := purposesSet.Keys;
    while rest != {}
      invariant rest <= purposesSet.Keys && |g| == 3
      invariant forall k :: k in purposesSet && k !in rest ==> |purposesSet[k].names| <= 2
      invariant forall n :: 0 <= n < 3 ==> g[n] == set k | k in purposesSet && k !in rest && |purposesSet[k].names| == n
    {
      var k :| k in rest;
      var n := |purposesSet[k].names|;
      if n > 2 {
        crash := true;
        return;
      }
      g := g[n := g[n] + {k}];
      rest := rest - {k};
    }
  }

  /** The single-candidate purposes with their candidate. */
  method Confirmed(purposesSet: map<string, Candidates>, single: set<string>) returns (r: seq<Used>)
    requires forall k :: k in single ==> k in purposesSet && |purposesSet[k].names| == 1
    ensures forall u :: u in r <==> u.purposeKey in single && u.epName == purposesSet[u.purposeKey].names[0]
  {
    r := [];
    var rest := single;
    while rest != {}
      invariant rest <= single
      invariant forall u :: u in r <==> u.purposeKey in single - rest && u.epName == purposesSet[u.purposeKey].names[0]
    {
      var k :| k in rest;
      r := r + [Used(k, purposesSet[k].names[0])];
      rest := rest - {k};
    }
  }

  ghost predicate HasGroup(purposesSet: map<string, Candidates>, n: nat) {
    exists k :: k in purposesSet && |purposesSet[k].names| == n
  }

  /** A purpose without candidates that needs an external API ends it; a pair is settled by the model. */
  method ConfirmEndpoints(purposesSet: map<string, Candidates>, us: seq<Used>) returns (r: Confirmation)
    ensures r.Crash? <==> exists k :: k in purposesSet && |purposesSet[k].names| > 2
    ensures r.MissionImpossible? <==>
              && !(exists k :: k in purposesSet && |purposesSet[k].names| > 2)
              && exists k :: k in purposesSet && purposesSet[k].names == [] && purposesSet[k].needExternalAPI
    ensures r.Confirmation? && HasGroup(purposesSet, 2) ==> r.purposes == us
    ensures r.Confirmation? && !HasGroup(purposesSet, 2) ==>
      forall u :: u in r.purposes <==> u.purposeKey in purposesSet && purposesSet[u.purposeKey].names == [u.epName]
  {
    var g, crash := Group(purposesSet);
    if crash {
      return Crash;
    }
    if exists k :: k in g[0] && purposesSet[k].needExternalAPI {
      return MissionImpossible;
    }
    assert forall k :: k in purposesSet && purposesSet[k].names == [] ==> k in g[0];
    if g[2] != {} {
      var k :| k in g[2];
      return Confirmation(us);
    }
    var purposes := Confirmed(purposesSet, g[1]);
    assert forall k :: k in purposesSet && |purposesSet[k].names| == 2 ==> k in g[2];
    return Confirmation(purposes);
  }

  /** The choice names this endpoint. */
  predicate NamedBy(us: seq<Used>, n: string) {
    exists u :: u in us && u.epName == n
  }

  /** The second step offers only endpoints that no purpose of the first names. */
  function Remaining(endpoints: seq<Endpoint>, purposes0: seq<Purpose>): (r: seq<Endpoint>)
    ensures forall e :: e in r <==> e in endpoints && !exists p :: p in purposes0 && p.epName == e.name
  {
    if endpoints == [] then []
    else
      var rest := Remaining(endpoints[1..], purposes0);
      if exists p :: p in purposes0 && p.epName == endpoints[0].name then rest else [endpoints[0]] + rest
  }

  /** The purposes of both steps, those of the second step first. */
  function AllPurposes(g0: Proposal, g1: Proposal): seq<Purpose> {
    FirstByKey(g1.unaddressedAPI + g1.usedEndpoints) + FirstByKey(g0.unaddressedAPI + g0.usedEndpoints)
  }

  /** Items of the unaddressed list name no endpoint, as their schema asks; the code does not check it. */
  ghost predicate Nameless(g: Proposal) {
    forall p :: p in g.unaddressedAPI ==> p.epName == ""
  }

  lemma {:induction false} NamesForConcat(a: seq<Purpose>, b: seq<Purpose>, key: string)
    ensures NamesFor(a + b, key) == NamesFor(a, key) + NamesFor(b, key)
  {
    if b == [] {
      assert a + b == a;
    } else {
      assert (a + b)[..|a + b| - 1] == a + b[..|b| - 1];
      NamesForConcat(a, b[..|b| - 1], key);
    }
  }

  /** A list with one purpose per key gives at most one name for a key. */
  lemma {:induction false} OneNameEach(ps: seq<Purpose>, key: string)
    requires DistinctKeys(ps)
    ensures |NamesFor(ps, key)| <= 1
    ensures (forall p :: p in ps ==> p.purposeKey != key) ==> NamesFor(ps, key) == []
    ensures forall n :: n in NamesFor(ps, key) ==> n != "" && exists p :: p in ps && p.epName == n
  {
    if ps != [] {
      var before := ps[..|ps| - 1];
      OneNameEach(before, key);
      if ps[|ps| - 1].purposeKey == key {
        forall p | p in before
          ensures p.purposeKey != key
        {
          var i :| 0 <= i < |before| && before[i] == p;
          assert ps[i] == p;
        }
      }
    }
  }

  function Purposes0(g0: Proposal): seq<Purpose> {
    FirstByKey(g0.unaddressedAPI + g0.usedEndpoints)
  }

  lemma AtMostOne(g: Proposal, key: string)
    ensures |NamesFor(Purposes0(g), key)| <= 1
  {
    FirstByKeyIsUnique(g.unaddressedAPI + g.usedEndpoints);
    OneNameEach(Purposes0(g), key);
  }

  lemma {:induction false} NamesComeFrom(all: seq<Purpose>, key: string, n: string)
    requires n in NamesFor(all, key)
    ensures n != "" && exists p :: p in all && p.epName == n
  {
    if all != [] && n in NamesFor(all[..|all| - 1], key) {
      NamesComeFrom(all[..|all| - 1], key, n);
    }
  }

  /**
   * Each purpose has at most two candidates, so the three groups partition the
   * purposes, whatever the model answers.
   */
  lemma AtMostTwoCandidates(g0: Proposal, g1: Proposal, key: string)
    ensures |NamesFor(AllPurposes(g0, g1), key)| <= 2
    ensures NamesFor(AllPurposes(g0, g1), key) == NamesFor(Purposes0(g1), key) + NamesFor(Purposes0(g0), key)
  {
    FirstByKeyIsUnique(g0.unaddressedAPI + g0.usedEndpoints);
    FirstByKeyIsUnique(g1.unaddressedAPI + g1.usedEndpoints);
    NamesForConcat(Purposes0(g1), Purposes0(g0), key);
    OneNameEach(Purposes0(g0), key);
    OneNameEach(Purposes0(g1), key);
  }

  /** The name a key gets is the one its first element gives, if any. */
  lemma {:induction false} NameOfFirst(ps: seq<Purpose>, i: int)
    requires FirstOfKey(ps, i)
    ensures NamesFor(FirstByKey(ps), ps[i].purposeKey) == if ps[i].epName == "" then [] else [ps[i].epName]
  {
    var n := |ps| - 1;
    var before := FirstByKey(ps[..n]);
    OneMore(before, ps[n]);
    if i < n {
      NameOfFirst(ps[..n], i);
      assert ps[i] in ps[..n];
    } else {
      FirstByKeyKeepsKeys(ps[..n]);
      NoNamesForOthers(before, ps[n].purposeKey);
      assert ps[n].purposeKey !in KeysOf(ps[..n]);
    }
  }

  /** Some unaddressed item of the second answer is the first of its key and repeats the key's name of the first answer. */
  ghost predicate Repeats(g0: Proposal, g1: Proposal, key: string) {
    exists i :: FirstOfKey(g1.unaddressedAPI, i) && g1.unaddressedAPI[i].purposeKey == key
                && g1.unaddressedAPI[i].epName != "" && NamesFor(Purposes0(g0), key) == [g1.unaddressedAPI[i].epName]
  }

  /** A name that the second answer gives to a key by a used endpoint is new. */
  lemma UsedNameIsNew(endpoints: seq<Endpoint>, g0: Proposal, g1: Proposal, key: string, n: string)
    requires Validated(g1, Remaining(endpoints, Purposes0(g0)))
    requires key !in KeysOf(g1.unaddressedAPI) && n in NamesFor(Purposes0(g1), key)
    ensures n !in NamesFor(Purposes0(g0), key)
  {
    var ps := g1.unaddressedAPI + g1.usedEndpoints;
    if key !in KeysOf(ps) {
      FirstByKeyKeepsKeys(ps);
      NoNamesForOthers(Purposes0(g1), key);
    } else {
      EveryKeyHasFirst(ps, key);
      var i :| FirstOfKey(ps, i) && ps[i].purposeKey == key;
      NameOfFirst(ps, i);
      assert forall j :: 0 <= j < |g1.unaddressedAPI| ==> g1.unaddressedAPI[j] in g1.unaddressedAPI;
      assert ps[i] in g1.usedEndpoints;
      var e :| e in Remaining(endpoints, Purposes0(g0)) && e.name == n;
      if n in NamesFor(Purposes0(g0), key) {
        NamesComeFrom(Purposes0(g0), key, n);
      }
    }
  }

  /**
   * Two candidates of a purpose are the same endpoint exactly when the second
   * answer repeats the name in an unaddressed item, which nobody validates.
   */
  lemma CoincideIff(endpoints: seq<Endpoint>, g0: Proposal, g1: Proposal, key: string)
    requires Validated(g1, Remaining(endpoints, Purposes0(g0)))
    ensures var names := NamesFor(AllPurposes(g0, g1), key);
            (|names| == 2 && names[0] == names[1]) <==> Repeats(g0, g1, key)
  {
    var n1, n0 := NamesFor(Purposes0(g1), key), NamesFor(Purposes0(g0), key);
    AtMostTwoCandidates(g0, g1, key);
    AtMostOne(g0, key);
    AtMostOne(g1, key);
    if key in KeysOf(g1.unaddressedAPI) {
      EveryKeyHasFirst(g1.unaddressedAPI, key);
      var i :| FirstOfKey(g1.unaddressedAPI, i) && g1.unaddressedAPI[i].purposeKey == key;
      assert FirstOfKey(g1.unaddressedAPI + g1.usedEndpoints, i);
      NameOfFirst(g1.unaddressedAPI + g1.usedEndpoints, i);
      forall j | FirstOfKey(g1.unaddressedAPI, j) && g1.unaddressedAPI[j].purposeKey == key
        ensures j == i
      {}
    } else {
      assert forall j :: 0 <= j < |g1.unaddressedAPI| ==> g1.unaddressedAPI[j] in g1.unaddressedAPI;
      if |n1 + n0| == 2 {
        UsedNameIsNew(endpoints, g0, g1, key, n1[0]);
      }
    }
  }

  /** In particular they differ if unaddressed items name nothing, as the schema asks. */
  lemma CandidatesDiffer(endpoints: seq<Endpoint>, g0: Proposal, g1: Proposal, key: string)
    requires Validated(g1, Remaining(endpoints, Purposes0(g0))) && Nameless(g1)
    ensures var names := NamesFor(AllPurposes(g0, g1), key);
            |names| == 2 ==> names[0] != names[1]
  {
    CoincideIff(endpoints, g0, g1, key);
    assert forall i :: FirstOfKey(g1.unaddressedAPI, i) ==> g1.unaddressedAPI[i] in g1.unaddressedAPI;
  }

  lemma OnePurpose(p: Purpose)
    ensures FirstByKey([p]) == [p] && KeysOf([p]) == {p.purposeKey}
    ensures NamesFor([p], p.purposeKey) == if p.epName == "" then [] else [p.epName]
  {
    assert [p][..0] == [];
    assert FirstByKey([p]) == FirstByKey([]) + [p];
  }

  const Offer := [Endpoint("e", "1")]
  const Naming := Purpose("k", "e", false)

  const Using := Proposal([], [Naming])
  const Repeating := Proposal([Naming], [])

  lemma NamedTwice()
    ensures Purposes0(Using) == [Naming] && Purposes0(Repeating) == [Naming]
    ensures NamesFor([Naming], "k") == ["e"]
  {
    assert [] + [Naming] == [Naming] && [Naming] + [] == [Naming];
    OnePurpose(Naming);
  }

  /** The smallest answers that pass validation and give the same endpoint twice. */
  lemma CandidatesCanCoincide()
    ensures Validated(Using, Offer) && Validated(Repeating, Remaining(Offer, Purposes0(Using)))
    ensures NamesFor(AllPurposes(Using, Repeating), "k") == ["e", "e"]
  {
    NamedTwice();
    NamesForConcat([Naming], [Naming], "k");
    assert ["e"] + ["e"] == ["e", "e"];
    assert Offer[0] in Offer;
  }

  /** Every unaddressed item that is the first of its key and names something names an offered endpoint. */
  ghost predicate UnaddressedAreOffered(g: Proposal, endpoints: seq<Endpoint>) {
    forall i :: FirstOfKey(g.unaddressedAPI, i) && g.unaddressedAPI[i].epName != "" ==>
      g.unaddressedAPI[i].epName in Names(endpoints)
  }

  ghost predicate AllOffered(ps: seq<Purpose>, endpoints: seq<Endpoint>) {
    forall p :: p in ps && p.epName != "" ==> p.epName in Names(endpoints)
  }

  lemma StepOffered(endpoints: seq<Endpoint>, g: Proposal)
    requires forall p :: p in g.usedEndpoints && p.epName != "" ==> p.epName in Names(endpoints)
    ensures AllOffered(Purposes0(g), endpoints) <==> UnaddressedAreOffered(g, endpoints)
  {
    var ps := g.unaddressedAPI + g.usedEndpoints;
    var n := |g.unaddressedAPI|;
    assert ps[..n] == g.unaddressedAPI;
    forall i | FirstOfKey(g.unaddressedAPI, i)
      ensures g.unaddressedAPI[i] in Purposes0(g)
    {
      assert FirstOfKey(ps, i);
      FirstByKeyKeepsFirst(ps, i);
    }
    forall p | p in Purposes0(g) && p !in g.usedEndpoints
      ensures exists i :: FirstOfKey(g.unaddressedAPI, i) && g.unaddressedAPI[i] == p
    {
      FirstByKeyOrigin(ps, p);
      var i :| FirstOfKey(ps, i) && ps[i] == p;
      assert forall j :: n <= j < |ps| ==> ps[j] in g.usedEndpoints;
      assert FirstOfKey(g.unaddressedAPI, i);
    }
  }

  /**
   * All purposes name offered endpoints exactly when, in both answers, the
   * unaddressed items that survive `uniqueBy` do.
   */
  lemma NamedEndpointsExistIff(endpoints: seq<Endpoint>, g0: Proposal, g1: Proposal)
    requires Validated(g0, endpoints) && Validated(g1, Remaining(endpoints, Purposes0(g0)))
    ensures AllOffered(AllPurposes(g0, g1), endpoints)
       <==> UnaddressedAreOffered(g0, endpoints) && UnaddressedAreOffered(g1, endpoints)
  {
    StepOffered(endpoints, g0);
    forall p | p in g1.usedEndpoints && p.epName != ""
      ensures p.epName in Names(endpoints)
    {
      var e :| e in Remaining(endpoints, Purposes0(g0)) && e.name == p.epName;
      assert e in endpoints;
    }
    StepOffered(endpoints, g1);
  }

  /** Some purpose has two candidates. */
  ghost predicate HasPair(all: seq<Purpose>) {
    exists p :: p in all && |NamesFor(all, p.purposeKey)| == 2
  }

  /** The chosen endpoints are those that the chosen purposes name, looked up among the offered ones. */
  ghost predicate Covers(endpoints: seq<Endpoint>, r: Choice) {
    r.Chosen? ==>
      && (forall n :: n in r.endpoints <==> n != "" && NamedBy(r.purposes, n))
      && (forall n :: n in r.endpoints ==> r.endpoints[n] == Find(endpoints, n))
  }

  /** The model's answers as far as the code validates them. */
  ghost predicate Answers(endpoints: seq<Endpoint>, g0: Proposal, g1: Proposal, us: seq<Used>) {
    && Validated(g0, endpoints) && Validated(g1, Remaining(endpoints, Purposes0(g0)))
    && forall u :: u in us ==> u.epName == "" || exists p :: p in AllPurposes(g0, g1) && p.epName == u.epName
  }

  /**
   * What a choice is: impossible exactly if a purpose without candidates needs an
   * external API; else the last answer if some purpose has two candidates, and
   * each purpose with its one candidate if none has; with the endpoints so named.
   */
  ghost predicate IsChoice(endpoints: seq<Endpoint>, all: seq<Purpose>, us: seq<Used>, r: Choice) {
    && (r.Failed? ==> r.why == MissionImpossible)
    && (r.Failed? <==> exists k :: k in KeysOf(all) && NeedFor(all, k) && NamesFor(all, k) == [])
    && Covers(endpoints, r)
    && (r.Chosen? && HasPair(all) ==> r.purposes == us)
    && (r.Chosen? && !HasPair(all) ==>
          && (forall u :: u in r.purposes ==> NamesFor(all, u.purposeKey) == [u.epName])
          && (forall p, n :: p in all && NamesFor(all, p.purposeKey) == [n] ==> Used(p.purposeKey, n) in r.purposes))
  }

  /**
   * The whole choice.  `g0`, `g1` and `us` are the model's three answers, each
   * validated against what was offered to it.
   */
  method ChooseEndpoints(endpoints: seq<Endpoint>, g0: Proposal, g1: Proposal, us: seq<Used>) returns (r: Choice)
    requires Answers(endpoints, g0, g1, us)
    ensures IsChoice(endpoints, AllPurposes(g0, g1), us, r)
    ensures r.Chosen? && UnaddressedAreOffered(g0, endpoints) && UnaddressedAreOffered(g1, endpoints) ==>
      forall n :: n in r.endpoints ==> r.endpoints[n].Some?
  {
    var purposes0 := UniqueBy(g0.unaddressedAPI + g0.usedEndpoints);
    var purposes1 := UniqueBy(g1.unaddressedAPI + g1.usedEndpoints);
    var all := purposes1 + purposes0;
    assert all == AllPurposes(g0, g1);
    var purposesSet, epsMap := Collect(all, endpoints);
    assert forall p :: p in all ==> p.purposeKey in purposesSet;
    forall k | k in purposesSet
      ensures |purposesSet[k].names| <= 2
    {
      AtMostTwoCandidates(g0, g1, k);
    }
    assert HasGroup(purposesSet, 2) <==> HasPair(all);
    var confirmed := ConfirmEndpoints(purposesSet, us);
    if !confirmed.Confirmation? {
      return Failed(confirmed);
    }
    var purposes := confirmed.purposes;
    var kept := map n | n in epsMap && NamedBy(purposes, n) :: epsMap[n];
    forall u | u in purposes
      ensures u.epName == "" || u.epName in epsMap
    {
      if !HasPair(all) {
        NamesComeFrom(all, u.purposeKey, u.epName);
      }
    }
    NamedEndpointsExistIff(endpoints, g0, g1);
    return Chosen(kept, purposes);
  }

  /** An unaddressed item that names no offered endpoint, and one that names nothing. */
  const Ghostly := Proposal([Purpose("k", "ghost", false)], [])
  const Silent := Proposal([Purpose("k", "", false)], [])

  lemma GhostlyPurposes()
    ensures AllPurposes(Ghostly, Silent) == [Purpose("k", "", false), Purpose("k", "ghost", false)]
    ensures NamesFor(AllPurposes(Ghostly, Silent), "k") == ["ghost"] && KeysOf(AllPurposes(Ghostly, Silent)) == {"k"}
  {
    var p, q := Purpose("k", "ghost", false), Purpose("k", "", false);
    assert [p] + [] == [p] && [q] + [] == [q];
    OnePurpose(p);
    OnePurpose(q);
    assert [q] + [p] == [q, p];
    NamesForConcat([q], [p], "k");
    KeysSnoc([q], p);
  }

  /** A choice over one purpose with one candidate and no need of an external API. */
  lemma SingleCandidate(endpoints: seq<Endpoint>, all: seq<Purpose>, p: Purpose, n: string, r: Choice)
    requires IsChoice(endpoints, all, [], r) && p in all && n != ""
    requires forall x :: x in all ==> x.purposeKey == p.purposeKey
    requires NamesFor(all, p.purposeKey) == [n]
    ensures r.Chosen? && Used(p.purposeKey, n) in r.purposes && n in r.endpoints && r.endpoints[n] == Find(endpoints, n)
  {
    assert !HasPair(all);
    assert forall k :: k in KeysOf(all) ==> k == p.purposeKey;
    assert NamedBy(r.purposes, n);
  }

  /**
   * Answers that pass validation, with an endpoint on offer, and a name of no
   * endpoint: every choice made from them keeps that name, without an endpoint.
   */
  lemma UnknownNameIsKept(r: Choice)
    requires IsChoice(Offer, AllPurposes(Ghostly, Silent), [], r)
    ensures Answers(Offer, Ghostly, Silent, [])
    ensures r.Chosen? && Used("k", "ghost") in r.purposes && "ghost" in r.endpoints && r.endpoints["ghost"].None?
  {
    GhostlyPurposes();
    var q, p := Purpose("k", "", false), Purpose("k", "ghost", false);
    SingleCandidate(Offer, [q, p], p, "ghost", r);
    assert |"ghost"| == 5 && |"e"| == 1;
    assert Find(Offer, "ghost").None?;
  }
}
