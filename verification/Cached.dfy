/**
 * The response cache of server endpoints (src/cached/cached.service.ts).  A row
 * holds a response or, for an async endpoint, the pending marker together with
 * the invoke keys of the callers that wait for it.
 */
module Cached {
  import opened Common

  datatype Endpoint = Endpoint(isAsync: bool, cacheTtl: int)

  /** The unique index on a row: (sepId, cacheKey). */
  datatype Key = Key(sepId: string, cacheKey: string)

  datatype Row = Row(response: Reply, sourceId: string, invokeKeys: seq<string>, createdAt: int)

  type Table = map<Key, Row>

  /** One triggered resume of an observer. */
  datatype Note = Note(invokeKey: string, data: Json)

  /** A cache lookup: the table after it, the configuration in use, the row served. */
  datatype Probe = Probe(table: Table, cacheKey: string, cacheTtl: int, response: Option<Reply>)

  /** A key that is not empty, and a reason to keep the response. */
  predicate ReallyCache(cacheKey: string, cacheTtl: int, ep: Endpoint) {
    cacheKey != "" && (ep.isAsync || cacheTtl > 0)
  }

  /** A negative ttl or an empty key turns caching off; the configuration is then empty. */
  function LoadCacheConfig(ep: Endpoint, cacheKey: string): (string, int) {
    if ep.cacheTtl < 0 || cacheKey == "" then ("", 0) else (cacheKey, ep.cacheTtl)
  }

  /** Whether a row may no longer be served; times are in milliseconds, ttl in seconds. */
  predicate Expired(row: Row, ep: Endpoint, ttl: int, now: int) {
    if ttl != 0 then row.createdAt + ttl * 1000 < now else !(ep.isAsync && row.response.Pending?)
  }

  /** What a lookup does to the table and what it answers. */
  function FromCachedSpec(t: Table, ep: Endpoint, k: Key, invokeKey: string, now: int): Probe {
    var (key, ttl) := LoadCacheConfig(ep, k.cacheKey);
    if !ReallyCache(key, ttl, ep) || k !in t then Probe(t, key, ttl, None)
    else if Expired(t[k], ep, ttl, now) then Probe(t - {k}, key, ttl, None)
    else if ep.isAsync && t[k].response.Pending? then
      Probe(t[k := t[k].(invokeKeys := t[k].invokeKeys + [invokeKey])], key, ttl, Some(Pending))
    else Probe(t, key, ttl, Some(t[k].response))
  }

  /** `None` is the violation of the unique index. */
  function ToCacheSpec(t: Table, k: Key, ttl: int, reply: Reply, ep: Endpoint, sourceId: string, now: int)
    : Option<Table>
  {
    if !ReallyCache(k.cacheKey, ttl, ep) then Some(t)
    else if k in t then None
    else Some(t[k := Row(reply, sourceId, [], now)])
  }

  /** Resolve a row and trigger the resume of its observers. */
  function UpdateCacheSpec(t: Table, k: Key, ttl: int, reply: Reply, ep: Endpoint): (Table, seq<Note>) {
    if !ReallyCache(k.cacheKey, ttl, ep) || k !in t then (t, [])
    else (t[k := t[k].(response := reply)], Notes(Flatten(Groups(t[k].invokeKeys, 3)), DataOf(reply)))
  }

  function Notes(keys: seq<string>, data: Json): (r: seq<Note>)
    ensures |r| == |keys|
    ensures forall i :: 0 <= i < |keys| ==> r[i] == Note(keys[i], data)
  {
    seq(|keys|, i requires 0 <= i < |keys| => Note(keys[i], data))
  }

  // ------------------------------------------------------------------ grouping

  function Min(a: int, b: int): int {
    if a < b then a else b
  }

  /** Slices of the list itself, as many as its number of distinct keys asks for. */
  function GroupsFrom(keys: seq<string>, distinct: nat, i: nat, chunk: nat): seq<seq<string>>
    requires chunk > 0
    decreases distinct - i
  {
    if i >= distinct then []
    else [keys[Min(i, |keys|)..Min(i + chunk, |keys|)]] + GroupsFrom(keys, distinct, i + chunk, chunk)
  }

  function Groups(keys: seq<string>, chunk: nat): seq<seq<string>>
    requires chunk > 0
  {
    GroupsFrom(keys, |set x | x in keys|, 0, chunk)
  }

  /** The first of i, i + chunk, i + 2 * chunk, ... that reaches n. */
  function RoundUp(n: nat, i: nat, chunk: nat): (r: nat)
    requires chunk > 0
    ensures r >= n && r >= i
    decreases n - i
  {
    if i >= n then i else RoundUp(n, i + chunk, chunk)
  }

  lemma {:induction false} GroupsFromKeep(keys: seq<string>, distinct: nat, i: nat, chunk: nat)
    requires chunk > 0
    ensures Flatten(GroupsFrom(keys, distinct, i, chunk))
         == keys[Min(i, |keys|)..Min(RoundUp(distinct, i, chunk), |keys|)]
    ensures forall g :: g in GroupsFrom(keys, distinct, i, chunk) ==> |g| <= chunk
    decreases distinct - i
  {
    if i < distinct {
      var rest := GroupsFrom(keys, distinct, i + chunk, chunk);
      var lo, mid, hi := Min(i, |keys|), Min(i + chunk, |keys|), Min(RoundUp(distinct, i, chunk), |keys|);
      GroupsFromKeep(keys, distinct, i + chunk, chunk);
      var all := [keys[lo..mid]] + rest;
      assert all[1..] == rest;
      assert keys[lo..mid] + keys[mid..hi] == keys[lo..hi];
    } else {
      assert keys[Min(i, |keys|)..Min(i, |keys|)] == [];
    }
  }

  /**
   * The groups hold the list in order up to its number of distinct keys rounded
   * up to whole groups, none longer than a chunk.  So they hold all of it exactly
   * when its length is within that bound; keys beyond it are never notified.
   */
  lemma GroupsKeep(keys: seq<string>, chunk: nat)
    requires chunk > 0
    ensures var bound := RoundUp(|set x | x in keys|, 0, chunk);
            && Flatten(Groups(keys, chunk)) == keys[..Min(bound, |keys|)]
            && (Flatten(Groups(keys, chunk)) == keys <==> |keys| <= bound)
    ensures forall g :: g in Groups(keys, chunk) ==> |g| <= chunk
  {
    GroupsFromKeep(keys, |set x | x in keys|, 0, chunk);
  }

  lemma {:induction false} DistinctKeys(keys: seq<string>)
    requires NoDup(keys)
    ensures |set x | x in keys| == |keys|
  {
    if keys != [] {
      DistinctKeys(keys[1..]);
      assert (set x | x in keys) == {keys[0]} + (set x | x in keys[1..]);
    }
  }

  /** A list without repeated keys is notified completely, each key in one group. */
  lemma GroupsPartition(keys: seq<string>, chunk: nat)
    requires chunk > 0 && NoDup(keys)
    ensures Flatten(Groups(keys, chunk)) == keys
  {
    DistinctKeys(keys);
    GroupsKeep(keys, chunk);
  }

  /** The table after these callers, one after the other, looked the key up. */
  function LookedUp(t: Table, ep: Endpoint, k: Key, callers: seq<string>): Table
    decreases |callers|
  {
    if callers == [] then t else LookedUp(FromCachedSpec(t, ep, k, callers[0], 0).table, ep, k, callers[1..])
  }

  /** Each of them is listed, as often as it comes. */
  lemma {:induction false} LookedUpLists(t: Table, ep: Endpoint, k: Key, callers: seq<string>)
    requires ep.isAsync && ep.cacheTtl == 0 && k.cacheKey != "" && k in t && t[k].response.Pending?
    ensures LookedUp(t, ep, k, callers) == t[k := t[k].(invokeKeys := t[k].invokeKeys + callers)]
    decreases |callers|
  {
    if callers != [] {
      LookedUpLists(FromCachedSpec(t, ep, k, callers[0], 0).table, ep, k, callers[1..]);
      assert t[k].invokeKeys + [callers[0]] + callers[1..] == t[k].invokeKeys + callers;
    } else {
      assert t[k].invokeKeys + [] == t[k].invokeKeys;
    }
  }

  /**
   * With repeated keys a caller can be lost: one that looks a pending key up three
   * times before any other keeps that other one from ever being resumed.
   */
  lemma RepeatedKeysAreCut(k: Key, a: string, b: string, owner: string, response: Json)
    requires k.cacheKey != "" && a != b
    ensures var ep := Endpoint(true, 0);
            var t := LookedUp(map[k := Row(Pending, owner, [], 0)], ep, k, [a, a, a, b]);
            && k in t && t[k].invokeKeys == [a, a, a, b]
            && UpdateCacheSpec(t, k, 0, Done(response), ep).1 == Notes([a, a, a], response)
  {
    var keys := [a, a, a, b];
    var t := map[k := Row(Pending, owner, [], 0)];
    LookedUpLists(t, Endpoint(true, 0), k, keys);
    assert [] + keys == keys;
    assert (set x | x in keys) == {a, b};
    GroupsKeep(keys, 3);
    assert RoundUp(2, 0, 3) == 3;
    assert keys[..3] == [a, a, a];
  }

  /** The endpoint caches under this key. */
  predicate CachingOn(ep: Endpoint, k: Key) {
    k.cacheKey != "" && ep.cacheTtl >= 0 && (ep.isAsync || ep.cacheTtl > 0)
  }

  /** The row may be served: not older than a positive ttl; without a ttl, only a pending row of an async endpoint. */
  predicate Serves(t: Table, ep: Endpoint, k: Key, now: int) {
    && k in t && k.cacheKey != "" && ep.cacheTtl >= 0
    && if ep.cacheTtl > 0 then now <= t[k].createdAt + ep.cacheTtl * 1000 else ep.isAsync && t[k].response.Pending?
  }

  // ------------------------------------------------------------------- service

  class CachedService {
    var rows: Table
    /** Resumes triggered so far, in order. */
    var resumed: seq<Note>

    constructor ()
      ensures rows == map[] && resumed == []
    {
      rows, resumed := map[], [];
    }

    method FromCached(k: Key, ep: Endpoint, invokeKey: string, now: int)
      returns (cacheKey: string, cacheTtl: int, response: Option<Reply>)
      modifies this`rows
      ensures Probe(rows, cacheKey, cacheTtl, response) == FromCachedSpec(old(rows), ep, k, invokeKey, now)
      ensures cacheKey == (if ep.cacheTtl < 0 then "" else k.cacheKey)
      ensures cacheTtl == (if ep.cacheTtl < 0 || k.cacheKey == "" then 0 else ep.cacheTtl)
      ensures response == if Serves(old(rows), ep, k, now) then Some(old(rows)[k].response) else None
      ensures Serves(old(rows), ep, k, now) ==>
                rows == if ep.isAsync && old(rows)[k].response.Pending?
                        then old(rows)[k := old(rows)[k].(invokeKeys := old(rows)[k].invokeKeys + [invokeKey])]
                        else old(rows)
      ensures !Serves(old(rows), ep, k, now) ==> rows == if CachingOn(ep, k) then old(rows) - {k} else old(rows)
    {
      var r := LoadCacheConfig(ep, k.cacheKey);
      cacheKey, cacheTtl, response := r.0, r.1, None;
      if !ReallyCache(cacheKey, cacheTtl, ep) || k !in rows {
        return;
      }
      var c := rows[k];
      var expired;
      if cacheTtl != 0 {
        expired := c.createdAt + cacheTtl * 1000 < now;
      } else if ep.isAsync {
        expired := c.response != Pending;
      } else {
        assert false; // a row is looked up only for an async endpoint or a positive ttl
      }
      if expired {
        Delete(k);
        return;
      }
      if ep.isAsync && c.response.Pending? {
        AddObserver(k, invokeKey);
      }
      response := Some(c.response);
    }

    method Delete(k: Key)
      modifies this`rows
      ensures rows == old(rows) - {k}
    {
      rows := rows - {k};
    }

    method AddObserver(k: Key, invokeKey: string)
      requires k in rows
      modifies this`rows
      ensures rows == old(rows)[k := old(rows)[k].(invokeKeys := old(rows)[k].invokeKeys + [invokeKey])]
    {
      rows := rows[k := rows[k].(invokeKeys := rows[k].invokeKeys + [invokeKey])];
    }

    method ToCache(k: Key, ttl: int, reply: Reply, ep: Endpoint, sourceId: string, now: int) returns (threw: bool)
      modifies this`rows
      ensures var r := ToCacheSpec(old(rows), k, ttl, reply, ep, sourceId, now);
              threw == r.None? && rows == if threw then old(rows) else r.value
      ensures threw <==> k.cacheKey != "" && (ep.isAsync || ttl > 0) && k in old(rows)
      ensures rows == if !threw && k.cacheKey != "" && (ep.isAsync || ttl > 0)
                      then old(rows)[k := Row(reply, sourceId, [], now)] else old(rows)
    {
      threw := false;
      if !ReallyCache(k.cacheKey, ttl, ep) {
        return;
      }
      if k in rows {
        threw := true;
        return;
      }
      rows := rows[k := Row(reply, sourceId, [], now)];
    }

    method UpdateCache(k: Key, ttl: int, reply: Reply, ep: Endpoint) returns (found: bool)
      modifies this
      ensures var (t, notes) := UpdateCacheSpec(old(rows), k, ttl, reply, ep);
              rows == t && resumed == old(resumed) + notes
      ensures found <==> k.cacheKey != "" && (ep.isAsync || ttl > 0) && k in old(rows)
      ensures rows == if found then old(rows)[k := old(rows)[k].(response := reply)] else old(rows)
      ensures !found ==> resumed == old(resumed)
      ensures found && NoDup(old(rows)[k].invokeKeys) ==>
                && |resumed| == |old(resumed)| + |old(rows)[k].invokeKeys| && resumed[..|old(resumed)|] == old(resumed)
                && forall i :: 0 <= i < |old(rows)[k].invokeKeys| ==>
                     resumed[|old(resumed)| + i] == Note(old(rows)[k].invokeKeys[i], if reply.Done? then reply.data else Undefined)
    {
      if !ReallyCache(k.cacheKey, ttl, ep) || k !in rows {
        return false;
      }
      if NoDup(rows[k].invokeKeys) {
        GroupsPartition(rows[k].invokeKeys, 3);
      }
      rows := rows[k := rows[k].(response := reply)];
      NotifyObservers(rows[k].invokeKeys, DataOf(reply));
      return true;
    }

    /** Resume the observers, one group after the other. */
    method NotifyObservers(invokeKeys: seq<string>, data: Json)
      modifies this`resumed
      ensures resumed == old(resumed) + Notes(Flatten(Groups(invokeKeys, 3)), data)
    {
      var groups := Group(invokeKeys, 3);
      var i := 0;
      assert groups[..|groups|] == groups;
      while i < |groups|
        invariant 0 <= i <= |groups|
        invariant resumed == old(resumed) + Notes(Flatten(groups[..i]), data)
      {
        FlattenSnoc(groups[..i], groups[i]);
        assert groups[..i + 1] == groups[..i] + [groups[i]];
        resumed := resumed + Notes(groups[i], data);
        i := i + 1;
      }
    }

    static method Group(keys: seq<string>, chunk: nat) returns (result: seq<seq<string>>)
      requires chunk > 0
      ensures result == Groups(keys, chunk)
    {
      var ids := set x | x in keys;
      result := [];
      var i := 0;
      while i < |ids|
        invariant result + GroupsFrom(keys, |ids|, i, chunk) == Groups(keys, chunk)
      {
        var slice := keys[Min(i, |keys|)..Min(i + chunk, |keys|)];
        assert result + ([slice] + GroupsFrom(keys, |ids|, i + chunk, chunk))
            == result + [slice] + GroupsFrom(keys, |ids|, i + chunk, chunk);
        result := result + [slice];
        i := i + chunk;
      }
    }
  }

  // ----------------------------------------------------------------- freshness

  /** One use of the cache, by any endpoint and any event at any time. */
  datatype Op =
    | Look(k: Key, ep: Endpoint, invokeKey: string, now: int)
    | Store(k: Key, ttl: int, reply: Reply, ep: Endpoint, sourceId: string, now: int)
    | Resolve(k: Key, ttl: int, reply: Reply, ep: Endpoint)

  /** A value written to the table, in the order of writing. */
  datatype Write = Created(k: Key, reply: Reply, at: int) | Updated(k: Key, reply: Reply)

  datatype History = History(table: Table, writes: seq<Write>)

  function Apply(h: History, op: Op): History {
    match op
    case Look(k, ep, invokeKey, now) => h.(table := FromCachedSpec(h.table, ep, k, invokeKey, now).table)
    case Store(k, ttl, reply, ep, sourceId, now) =>
      (match ToCacheSpec(h.table, k, ttl, reply, ep, sourceId, now)
       case None => h
       case Some(t) => History(t, if ReallyCache(k.cacheKey, ttl, ep) then h.writes + [Created(k, reply, now)] else h.writes))
    case Resolve(k, ttl, reply, ep) =>
      if ReallyCache(k.cacheKey, ttl, ep) && k in h.table
      then History(UpdateCacheSpec(h.table, k, ttl, reply, ep).0, h.writes + [Updated(k, reply)])
      else h
  }

  function ApplyAll(h: History, ops: seq<Op>): History
    decreases |ops|
  {
    if ops == [] then h else ApplyAll(Apply(h, ops[0]), ops[1..])
  }

  /** The last value written for a key. */
  function LastReply(ws: seq<Write>, k: Key): Option<Reply> {
    if ws == [] then None
    else if ws[|ws| - 1].k == k then Some(ws[|ws| - 1].reply)
    else LastReply(ws[..|ws| - 1], k)
  }

  /** When the key's last row was created. */
  function LastCreated(ws: seq<Write>, k: Key): Option<int> {
    if ws == [] then None
    else if ws[|ws| - 1].k == k && ws[|ws| - 1].Created? then Some(ws[|ws| - 1].at)
    else LastCreated(ws[..|ws| - 1], k)
  }

  /** Every row is what was last written for its key, dated by its creation. */
  ghost predicate Faithful(h: History) {
    forall k :: k in h.table ==>
      && LastReply(h.writes, k) == Some(h.table[k].response)
      && LastCreated(h.writes, k) == Some(h.table[k].createdAt)
  }

  lemma ApplyKeepsFaithful(h: History, op: Op)
    requires Faithful(h)
    ensures Faithful(Apply(h, op))
  {
    var h' := Apply(h, op);
    if h'.writes != h.writes {
      assert h'.writes[..|h'.writes| - 1] == h.writes;
    }
  }

  lemma {:induction false} ApplyAllKeepsFaithful(h: History, ops: seq<Op>)
    requires Faithful(h)
    ensures Faithful(ApplyAll(h, ops))
    decreases |ops|
  {
    if ops != [] {
      ApplyKeepsFaithful(h, ops[0]);
      ApplyAllKeepsFaithful(Apply(h, ops[0]), ops[1..]);
    }
  }

  /**
   * After any uses of the cache, a lookup with a positive ttl serves only the
   * last value written for that very endpoint and key, and only while it is at
   * most ttl seconds old, counted from the creation of the row.
   */
  lemma ServedIsFresh(ops: seq<Op>, ep: Endpoint, k: Key, invokeKey: string, now: int)
    requires ep.cacheTtl > 0
    ensures var h := ApplyAll(History(map[], []), ops);
            var probe := FromCachedSpec(h.table, ep, k, invokeKey, now);
            probe.response.Some? ==>
              && LastReply(h.writes, k) == probe.response
              && LastCreated(h.writes, k).Some?
              && now <= LastCreated(h.writes, k).value + ep.cacheTtl * 1000
  {
    ApplyAllKeepsFaithful(History(map[], []), ops);
  }

  /** With a positive ttl, a row is served exactly while it has not expired. */
  lemma ServedIff(t: Table, ep: Endpoint, k: Key, invokeKey: string, now: int)
    ensures FromCachedSpec(t, ep, k, invokeKey, now).response ==
            if && k in t && k.cacheKey != "" && ep.cacheTtl >= 0
               && (if ep.cacheTtl > 0 then now <= t[k].createdAt + ep.cacheTtl * 1000
                   else ep.isAsync && t[k].response.Pending?)
            then Some(t[k].response) else None
  {}

  /** Whoever looks the key up in these operations finds a row created at `at` not yet expired. */
  ghost predicate LooksInTime(ops: seq<Op>, k: Key, at: int) {
    forall op :: op in ops && op.Look? && op.k == k ==> op.ep.cacheTtl <= 0 || op.now <= at + op.ep.cacheTtl * 1000
  }

  /** No such lookup finds the row with an endpoint that drops answers at once. */
  ghost predicate KeepsAnswers(ops: seq<Op>, k: Key) {
    forall op :: op in ops && op.Look? && op.k == k ==> op.ep.cacheTtl != 0
  }

  /** The reply last written for the key, if any, else the one that was there. */
  function Latest(ops: seq<Op>, k: Key, reply: Reply): Reply {
    if ops == [] then reply
    else
      var op := ops[|ops| - 1];
      if op.Resolve? && op.k == k && k.cacheKey != "" && (op.ep.isAsync || op.ttl > 0) then op.reply
      else Latest(ops[..|ops| - 1], k, reply)
  }

  lemma {:induction false} ApplyAllSnoc(h: History, ops: seq<Op>, op: Op)
    ensures ApplyAll(h, ops + [op]) == Apply(ApplyAll(h, ops), op)
    decreases |ops|
  {
    if ops == [] {
      assert ops + [op] == [op] && [op][1..] == [];
    } else {
      assert (ops + [op])[1..] == ops[1..] + [op];
      ApplyAllSnoc(Apply(h, ops[0]), ops[1..], op);
    }
  }

  /** A row outlives any operations that find it in time, with the latest reply. */
  lemma {:induction false} RowSurvives(h: History, k: Key, ops: seq<Op>)
    requires k in h.table && LooksInTime(ops, k, h.table[k].createdAt) && KeepsAnswers(ops, k)
    ensures var t := ApplyAll(h, ops).table;
            k in t && t[k].createdAt == h.table[k].createdAt && t[k].response == Latest(ops, k, h.table[k].response)
    decreases |ops|
  {
    if ops != [] {
      var n := |ops| - 1;
      assert ops == ops[..n] + [ops[n]];
      RowSurvives(h, k, ops[..n]);
      ApplyAllSnoc(h, ops[..n], ops[n]);
    }
  }

  /**
   * What is stored is served.  An answer stored under a free key by an endpoint
   * that caches it is what any lookup within the ttl serves, whatever happens to
   * the cache in between in that time, unless the row was updated since; then it
   * is the latest update.  The adaptor need not be asked again.
   */
  lemma StoredIsServed(h: History, k: Key, ep: Endpoint, reply: Reply, sourceId: string, at: int,
                       ops: seq<Op>, invokeKey: string, now: int)
    requires k !in h.table && k.cacheKey != "" && ep.cacheTtl > 0
    requires LooksInTime(ops, k, at) && KeepsAnswers(ops, k) && now <= at + ep.cacheTtl * 1000
    ensures var h1 := Apply(h, Store(k, ep.cacheTtl, reply, ep, sourceId, at));
            && h1.table == h.table[k := Row(reply, sourceId, [], at)]
            && FromCachedSpec(ApplyAll(h1, ops).table, ep, k, invokeKey, now).response == Some(Latest(ops, k, reply))
  {
    RowSurvives(Apply(h, Store(k, ep.cacheTtl, reply, ep, sourceId, at)), k, ops);
  }

  /** An endpoint that may not cache never reads from the table nor changes it. */
  lemma UncachedLeavesNoTrace(h: History, op: Op)
    requires match op
             case Look(k, ep, _, _) => ep.cacheTtl < 0 || !ReallyCache(k.cacheKey, ep.cacheTtl, ep)
             case Store(k, ttl, _, ep, _, _) => !ReallyCache(k.cacheKey, ttl, ep)
             case Resolve(k, ttl, _, ep) => !ReallyCache(k.cacheKey, ttl, ep)
    ensures Apply(h, op) == h
    ensures op.Look? ==> FromCachedSpec(h.table, op.ep, op.k, op.invokeKey, op.now).response == None
  {}
}
