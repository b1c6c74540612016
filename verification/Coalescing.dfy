/**
 * Many direct invocations sharing one response cache.  Each step is a whole
 * first pass (an event is emitted), a whole callback (the endpoint or the auth
 * process answers), or the delivery of one triggered resume.  The steps of any
 * number of events interleave in any order.
 *
 * An invocation goes through src/invoke/script-runner.service.ts and
 * src/invoke/invoke.service.ts as its event's last listener; what those two make
 * of a call's result is `AfterFirst` and `AfterResume`.
 */
module Coalescing {
  import opened Common
  import opened SepChain
  import opened Cached
  import opened Invocation
  import InvokeKeys

  /** The stored status: 0 is `Processed`, 2 is `Waiting`, any error code is `Failed`. */
  datatype Status = Processed | Waiting | Failed

  /** The entry kept in `context.invocations` under the empty invoke id. */
  datatype Inv = Inv(cursor: Cursor, cacheKey: string, cacheTtl: int, log: seq<Stage>)

  datatype Event = Event(sepId: string, status: Status, inv: Option<Inv>, resp: Option<Json>)

  /** A pending row resolved by its owner's callback, with the observers that then waited. */
  datatype Verdict = Verdict(k: Key, owner: string, data: Json, observers: seq<string>)

  datatype Sys = Sys(table: Table, events: map<string, Event>, outbox: seq<Note>, verdicts: seq<Verdict>)

  /** The endpoints, by id. */
  type Catalog = string -> Endpoint

  const Initial := Sys(map[], map[], [], [])

  function KeyFor(id: string): string {
    InvokeKeys.Compose("", id)
  }

  function IdOf(invokeKey: string): string {
    InvokeKeys.Parse(invokeKey).1
  }

  function SiteOf(cat: Catalog, id: string, sepId: string): Site {
    Site("", id, sepId, cat(sepId))
  }

  function Kept(cur: Cursor, w: Ctx): Option<Inv> {
    Some(Inv(cur, w.cacheKey, w.cacheTtl, w.log))
  }

  /** `runAndFix` on a direct invocation. */
  function AfterFirst(sepId: string, r: Result): Event {
    match r
    case Threw(_) => Event(sepId, Failed, None, None)
    case Held(cur, w) => Event(sepId, Status.Waiting, Kept(cur, w), None)
    case Replied(Done(d), _) => Event(sepId, Processed, None, Some(d))
    case Replied(_, _) => Event(sepId, Failed, None, None)
  }

  /**
   * `runAndFixCallback` on a direct invocation.  A result that is pending again
   * is refused with an error; a response is recorded, but the handler then reads
   * the status of an undefined result, so the event itself ends as failed.
   */
  function AfterResume(ev: Event, r: Result): Event {
    match r
    case Threw(_) => ev.(status := Failed, inv := None)
    case Held(cur, w) => ev.(status := Failed, inv := Kept(cur, w))
    case Replied(Done(d), _) => ev.(status := Failed, inv := None, resp := Some(d))
    case Replied(_, _) => ev.(status := Failed, inv := None)
  }

  function CtxOf(s: Sys, inv: Inv): Ctx {
    Ctx(s.table, [], inv.cacheKey, inv.cacheTtl, inv.log)
  }

  function Put(s: Sys, id: string, ev: Event, w: Ctx): Sys {
    s.(table := w.table, events := s.events[id := ev], outbox := s.outbox + w.resumed)
  }

  function FirstResult(cat: Catalog, s: Sys, id: string, sepId: string, o: Oracle): Result {
    Call(o, SiteOf(cat, id, sepId), None, Undefined, Ctx(s.table, [], "", 0, []))
  }

  function Emit(cat: Catalog, s: Sys, id: string, sepId: string, o: Oracle): Sys {
    var r := FirstResult(cat, s, id, sepId, o);
    Put(s, id, AfterFirst(sepId, r), r.world)
  }

  /** The event exists, has status 2 and holds the invocation. */
  predicate CanResume(s: Sys, id: string) {
    id in s.events && s.events[id].status.Waiting? && s.events[id].inv.Some?
  }

  function ResumeResult(cat: Catalog, s: Sys, id: string, response: Json, o: Oracle): Result
    requires CanResume(s, id)
  {
    var ev := s.events[id];
    Call(o, SiteOf(cat, id, ev.sepId), Some(ev.inv.value.cursor), response, CtxOf(s, ev.inv.value))
  }

  function Judge(cat: Catalog, s: Sys, id: string, r: Result): seq<Verdict>
    requires CanResume(s, id)
  {
    var ev := s.events[id];
    var k := Key(ev.sepId, ev.inv.value.cacheKey);
    if && ev.inv.value.cursor.name == Some(CALLBACK_POSTPROCESS) && r.Replied? && r.reply.Done?
       && ReallyCache(k.cacheKey, ev.inv.value.cacheTtl, cat(ev.sepId)) && k in s.table
    then [Verdict(k, id, r.reply.data, Waiters(s, s.table[k].invokeKeys))] else []
  }

  /** Of these keys, those of waiting events. */
  function Waiters(s: Sys, keys: seq<string>): (r: seq<string>)
    ensures forall ik :: ik in r <==> ik in keys && IdOf(ik) in s.events && s.events[IdOf(ik)].status.Waiting?
  {
    if keys == [] then []
    else
      var rest := Waiters(s, keys[1..]);
      if IdOf(keys[0]) in s.events && s.events[IdOf(keys[0])].status.Waiting? then [keys[0]] + rest else rest
  }

  /** A resume that is refused changes nothing. */
  function Resume(cat: Catalog, s: Sys, id: string, response: Json, o: Oracle): Sys {
    if !CanResume(s, id) then s
    else
      var r := ResumeResult(cat, s, id, response, o);
      var s' := Put(s, id, AfterResume(s.events[id], r), r.world);
      s'.(verdicts := s.verdicts + Judge(cat, s, id, r))
  }

  /**
   * An outside party calls back only an invocation that asked it something; the
   * chain of an observer has ended without asking anyone.
   */
  predicate MayCallBack(s: Sys, id: string) {
    CanResume(s, id) && s.events[id].inv.value.cursor.name.Some?
  }

  function Remove<T>(q: seq<T>, i: nat): seq<T>
    requires i < |q|
  {
    q[..i] + q[i + 1..]
  }

  /** Deliver any one of the triggered resumes; groups are sequential, members of a group are not. */
  function Deliver(cat: Catalog, s: Sys, i: nat, o: Oracle): Sys
    requires i < |s.outbox|
  {
    var note := s.outbox[i];
    var s1 := s.(outbox := Remove(s.outbox, i));
    if InvokeKeys.Parse(note.invokeKey).0 != "" then s1
    else Resume(cat, s1, IdOf(note.invokeKey), note.data, o)
  }

  datatype Step =
    | DoEmit(id: string, sepId: string, o: Oracle)
    | DoCallback(id: string, response: Json, o: Oracle)
    | DoDeliver(i: nat, o: Oracle)

  /** A step that is not enabled changes nothing; event ids are fresh. */
  function Take(cat: Catalog, s: Sys, step: Step): Sys {
    match step
    case DoEmit(id, sepId, o) => if id in s.events then s else Emit(cat, s, id, sepId, o)
    case DoCallback(id, response, o) => if MayCallBack(s, id) then Resume(cat, s, id, response, o) else s
    case DoDeliver(i, o) => if i < |s.outbox| then Deliver(cat, s, i, o) else s
  }

  function TakeAll(cat: Catalog, s: Sys, steps: seq<Step>): Sys
    decreases |steps|
  {
    if steps == [] then s else TakeAll(cat, Take(cat, s, steps[0]), steps[1..])
  }

  // ----------------------------------------------------------------- invariant

  /** An async endpoint without ttl: its rows only coalesce callers. */
  predicate Coalesces(cat: Catalog, sepId: string) {
    cat(sepId).isAsync && cat(sepId).cacheTtl == 0
  }

  predicate IsObserver(ev: Event) {
    ev.status.Waiting? && ev.inv.Some? && ev.inv.value.cursor.name.None?
  }

  predicate IsOwner(ev: Event) {
    && ev.status.Waiting? && ev.inv.Some? && ev.inv.value.cursor.breakCurrent.None?
    && ev.inv.value.cursor.name == Some(CALLBACK_POSTPROCESS)
  }

  predicate IsAtAuth(ev: Event) {
    && ev.status.Waiting? && ev.inv.Some? && AtAuth(Some(ev.inv.value.cursor))
    && ev.inv.value.cacheKey == "" && ev.inv.value.cacheTtl == 0
  }

  predicate PendingAt(t: Table, k: Key) {
    k in t && t[k].response.Pending?
  }

  /** Every waiting event is at authentication, awaits its endpoint, or observes. */
  ghost predicate Shapes(s: Sys) {
    forall id :: id in s.events && s.events[id].status.Waiting? ==>
      IsAtAuth(s.events[id]) || IsOwner(s.events[id]) || IsObserver(s.events[id])
  }

  /** A stored invoke key is that of an event of the endpoint; if it waits, it observes. */
  ghost predicate GoodKey(s: Sys, ik: string) {
    && ik == KeyFor(IdOf(ik)) && IdOf(ik) in s.events
    && (s.events[IdOf(ik)].status.Waiting? ==> IsObserver(s.events[IdOf(ik)]))
  }

  ghost predicate GoodKeys(s: Sys) {
    && (forall k, ik :: k in s.table && ik in s.table[k].invokeKeys ==>
          GoodKey(s, ik) && s.events[IdOf(ik)].sepId == k.sepId)
    && (forall i :: 0 <= i < |s.outbox| ==> GoodKey(s, s.outbox[i].invokeKey))
  }

  /** A pending row is its owner's, and an owner with a key has its pending row. */
  ghost predicate Flights(cat: Catalog, s: Sys) {
    && (forall k: Key :: Coalesces(cat, k.sepId) && PendingAt(s.table, k) ==>
          var id := s.table[k].sourceId;
          && k.cacheKey != "" && id in s.events && s.events[id].sepId == k.sepId
          && (s.events[id].status.Waiting? ==> IsOwner(s.events[id]) && s.events[id].inv.value.cacheKey == k.cacheKey))
    && (forall id :: id in s.events && IsOwner(s.events[id]) && OwnKey(s.events[id]).cacheKey != ""
                     && Coalesces(cat, s.events[id].sepId) ==>
          PendingAt(s.table, OwnKey(s.events[id])) && s.table[OwnKey(s.events[id])].sourceId == id)
  }

  function OwnKey(ev: Event): Key
    requires ev.inv.Some?
  {
    Key(ev.sepId, ev.inv.value.cacheKey)
  }

  predicate Registered(s: Sys, id: string)
    requires id in s.events && s.events[id].inv.Some?
  {
    && PendingAt(s.table, OwnKey(s.events[id]))
    && KeyFor(id) in s.table[OwnKey(s.events[id])].invokeKeys
  }

  predicate Notified(s: Sys, id: string) {
    exists i :: 0 <= i < |s.outbox| && s.outbox[i].invokeKey == KeyFor(id)
  }

  /** The invocation's chain ended on the pending row `k`; the event waits for it or has failed since. */
  predicate ObservedAt(ev: Event, k: Key) {
    ev.inv.Some? && ev.inv.value.cursor.name.None? && OwnKey(ev) == k
  }

  /** The keys of a pending row are distinct, belong to its observers, and are not being resumed. */
  ghost predicate Registers(cat: Catalog, s: Sys) {
    forall k: Key :: Coalesces(cat, k.sepId) && PendingAt(s.table, k) ==>
      && NoDup(s.table[k].invokeKeys)
      && (forall ik :: ik in s.table[k].invokeKeys ==> IdOf(ik) in s.events && ObservedAt(s.events[IdOf(ik)], k))
      && (forall i :: 0 <= i < |s.outbox| ==> s.outbox[i].invokeKey !in s.table[k].invokeKeys)
  }

  /** A waiting observer is registered in the pending row or has a resume on its way. */
  ghost predicate Attended(cat: Catalog, s: Sys) {
    forall id :: id in s.events && IsObserver(s.events[id]) && Coalesces(cat, s.events[id].sepId) ==>
      Registered(s, id) || Notified(s, id)
  }

  /** The key of an event whose endpoint coalesces. */
  predicate OfCoalescing(cat: Catalog, s: Sys, ik: string) {
    IdOf(ik) in s.events && Coalesces(cat, s.events[IdOf(ik)].sepId)
  }

  /** An event is resumed at most once. */
  ghost predicate SingleNotes(cat: Catalog, s: Sys) {
    forall i, j :: 0 <= i < j < |s.outbox| && OfCoalescing(cat, s, s.outbox[i].invokeKey) ==>
      s.outbox[i].invokeKey != s.outbox[j].invokeKey
  }

  /** The event ended with this response. */
  predicate Settled(s: Sys, id: string, data: Json) {
    id in s.events && !s.events[id].status.Waiting? && s.events[id].resp == Some(data)
  }

  /** The observer of a verdict has its response, or has it on its way. */
  ghost predicate Served(s: Sys, v: Verdict, ik: string) {
    && ik == KeyFor(IdOf(ik)) && IdOf(ik) in s.events && s.events[IdOf(ik)].sepId == v.k.sepId
    && (|| Settled(s, IdOf(ik), v.data)
        || (IsObserver(s.events[IdOf(ik)]) && Note(ik, v.data) in s.outbox))
  }

  /** The owner has the response, and every observer has it or has it on its way. */
  ghost predicate Upheld(s: Sys, v: Verdict) {
    Settled(s, v.owner, v.data) && forall ik :: ik in v.observers ==> Served(s, v, ik)
  }

  ghost predicate AllUpheld(cat: Catalog, s: Sys) {
    forall i :: 0 <= i < |s.verdicts| && Coalesces(cat, s.verdicts[i].k.sepId) ==> Upheld(s, s.verdicts[i])
  }

  ghost predicate Good(cat: Catalog, s: Sys) {
    && Shapes(s) && GoodKeys(s) && Flights(cat, s) && Registers(cat, s)
    && Attended(cat, s) && SingleNotes(cat, s) && AllUpheld(cat, s)
  }

  // ------------------------------------------------- the effect of a first pass

  /** The row's observers are as before, or it is a new row without any. */
  ghost predicate KeepsObservers(t: Table, t': Table) {
    forall k :: k in t' ==> t'[k].invokeKeys == [] || (k in t && t'[k].invokeKeys == t[k].invokeKeys)
  }

  ghost predicate SamePending(cat: Catalog, t: Table, t': Table) {
    forall k: Key :: Coalesces(cat, k.sepId) ==>
      (PendingAt(t, k) <==> PendingAt(t', k)) && (PendingAt(t, k) ==> t'[k] == t[k])
  }

  /** A first pass that neither takes a row nor joins one leaves the pending rows alone. */
  ghost predicate QuietPass(cat: Catalog, s: Site, w: Ctx, w': Ctx) {
    && w'.resumed == [] && KeepsObservers(w.table, w'.table) && SamePending(cat, w.table, w'.table)
  }

  /** The row has one more observer. */
  function Joined(t: Table, k: Key, ik: string): Table
    requires k in t
  {
    t[k := t[k].(invokeKeys := t[k].invokeKeys + [ik])]
  }

  lemma LookupEffect(cat: Catalog, o: Oracle, s: Site, t: Table)
    requires s.ep == cat(s.sepId) && o.cacheKey.Some?
    ensures var p := Lookup(o, s, t);
            var k := Key(s.sepId, p.cacheKey);
            && (p.cacheKey == "" || Key(s.sepId, p.cacheKey) == Key(s.sepId, o.cacheKey.value))
            && (p.cacheKey == "" ==> p.response.None? && p.table == t)
            && (p.response.None? ==>
                  && SamePending(cat, t, p.table) && KeepsObservers(t, p.table)
                  && (p.table == t || p.table == t - {k})
                  && (ReallyCache(p.cacheKey, p.cacheTtl, s.ep) ==> k !in p.table)
                  && (Coalesces(cat, s.sepId) ==> !PendingAt(t, k) || p.cacheKey == ""))
            && (p.response.Some? ==> k in t && p.response == Some(t[k].response))
            && (p.response.Some? && p.response.value.Pending? && s.ep.isAsync ==>
                  p.table == Joined(t, k, InvokeKeys.Compose(s.invokeId, s.eventId)))
            && (p.response.Some? && !(p.response.value.Pending? && s.ep.isAsync) ==> p.table == t)
  {}

  lemma MissEffect(cat: Catalog, o: Oracle, s: Site, ctx: Option<string>, w: Ctx)
    requires s.ep == cat(s.sepId) && w.resumed == []
    requires ReallyCache(w.cacheKey, w.cacheTtl, s.ep) ==> Key(s.sepId, w.cacheKey) !in w.table
    ensures var k := Key(s.sepId, w.cacheKey);
            match AfterMiss(o, s, ctx, w)
            case Threw(w') => w'.table == w.table && w'.resumed == []
            case Replied(r, w') =>
              && r.Done? && w'.resumed == []
              && (w'.table == w.table || (k !in w.table && w'.table == w.table[k := Row(r, s.eventId, [], o.now)]))
            case Held(cur, w') =>
              && cur.name == Some(CALLBACK_POSTPROCESS) && cur.breakCurrent.None?
              && w'.resumed == [] && w'.cacheKey == w.cacheKey && w'.cacheTtl == w.cacheTtl
              && (if ReallyCache(w.cacheKey, w.cacheTtl, s.ep)
                  then w'.table == w.table[k := Row(Pending, s.eventId, [], o.now)] else w'.table == w.table)
  {}

  /** What a first pass may do to the cache, by its result. */
  ghost predicate PassEffect(cat: Catalog, o: Oracle, s: Site, w: Ctx, r: Result) {
    match r
    case Threw(w') => QuietPass(cat, s, w, w')
    case Replied(_, w') => QuietPass(cat, s, w, w')
    case Held(cur, w') =>
      var k := Key(s.sepId, w'.cacheKey);
      && w'.resumed == [] && cur.breakCurrent.None?
      && if cur.name == Some(AUTH) then w' == w
         else if cur.name.None? then
           && w'.cacheKey != "" && PendingAt(w.table, k)
           && w'.table == if s.ep.isAsync then Joined(w.table, k, InvokeKeys.Compose(s.invokeId, s.eventId)) else w.table
         else
           && cur.name == Some(CALLBACK_POSTPROCESS)
           && if w'.cacheKey == "" || !Coalesces(cat, s.sepId) then QuietPass(cat, s, w, w')
              else !PendingAt(w.table, k) && w'.table == w.table[k := Row(Pending, s.eventId, [], o.now)]
  }

  lemma StoreIsQuiet(cat: Catalog, s: Site, w: Ctx, w1: Ctx, w2: Ctx, k: Key, row: Row)
    requires QuietPass(cat, s, w, w1) && w2.resumed == []
    requires w2.table == w1.table || (k !in w1.table && w2.table == w1.table[k := row])
    requires row.invokeKeys == [] && (Coalesces(cat, k.sepId) ==> !row.response.Pending?)
    ensures QuietPass(cat, s, w, w2)
  {}

  lemma MissPassEffect(cat: Catalog, o: Oracle, s: Site, ctx: Option<string>, w: Ctx)
    requires s.ep == cat(s.sepId) && o.cacheKey.Some?
    requires w.cacheKey == "" && w.cacheTtl == 0 && w.resumed == []
    requires Lookup(o, s, w.table).response.None?
    ensures PassEffect(cat, o, s, w, AfterAuth(o, s, ctx, w))
  {
    NamesDiffer();
    LookupEffect(cat, o, s, w.table);
    var p := Lookup(o, s, w.table);
    var k := Key(s.sepId, p.cacheKey);
    var w1 := AfterLookup(w, p);
    var w2 := w1.(log := w1.log + [Invoked]);
    MissEffect(cat, o, s, ctx, w2);
    assert QuietPass(cat, s, w, w2);
    var row := Row(Pending, s.eventId, [], o.now);
    match AfterMiss(o, s, ctx, w2) {
      case Threw(w') =>
      case Replied(r, w') =>
        StoreIsQuiet(cat, s, w, w2, w', k, Row(r, s.eventId, [], o.now));
      case Held(cur, w') =>
        if p.cacheKey == "" {
          assert w'.table == w.table;
        } else if !Coalesces(cat, s.sepId) {
          StoreIsQuiet(cat, s, w, w2, w', k, row);
        } else {
          assert (w.table - {k})[k := row] == w.table[k := row];
        }
    }
  }

  lemma FirstPassEffect(cat: Catalog, o: Oracle, s: Site, ctx: Option<string>, w: Ctx)
    requires s.ep == cat(s.sepId)
    requires w.cacheKey == "" && w.cacheTtl == 0 && w.resumed == []
    ensures PassEffect(cat, o, s, w, FirstPass(o, s, ctx, w))
  {
    NamesDiffer();
    if o.cacheKey.Some? {
      if Lookup(o, s, w.table).response.None? {
        MissPassEffect(cat, o, s, ctx, w);
      } else {
        LookupEffect(cat, o, s, w.table);
      }
    }
  }

  // ------------------------------------------------ what a first pass comes to

  /** Authentication lets the invocation through; it does so too when it asks to be resumed under no name. */
  predicate AuthPasses(o: Oracle, fun: string) {
    o.auth(fun).Passed? || o.auth(fun) == Suspended("")
  }

  /** Past authentication: the row served carries this reply, or the adaptor gives it after a miss. */
  ghost predicate Obtains(cat: Catalog, t: Table, sepId: string, o: Oracle, reply: Reply) {
    && o.cacheKey.Some?
    && var k := Key(sepId, o.cacheKey.value);
       if Serves(t, cat(sepId), k, o.now) then t[k].response == reply
       else if reply.Pending? then o.adaptor == Some(Pending)
       else reply.Done? && exists raw :: o.adaptor == Some(Done(raw)) && o.post(raw) == Some(reply.data)
  }

  /**
   * How a first pass ends, with authentication function `fun`: it throws or hands
   * back nothing, waits where it must, or has the answer.
   */
  ghost predicate EndsRightly(cat: Catalog, t: Table, sepId: string, o: Oracle, fun: string, r: Result) {
    && (r.Replied? && r.reply.Done? <==> AuthPasses(o, fun) && exists d :: Obtains(cat, t, sepId, o, Done(d)))
    && (r.Replied? && r.reply.Done? ==> Obtains(cat, t, sepId, o, r.reply))
    && (r.Held? <==> (o.auth(fun).Suspended? && !AuthPasses(o, fun))
                     || (AuthPasses(o, fun) && Obtains(cat, t, sepId, o, Pending)))
    && (r.Held? ==> AtAuth(Some(r.cursor)) == !AuthPasses(o, fun))
    && (r.Held? && AuthPasses(o, fun) ==>
          var served := Serves(t, cat(sepId), Key(sepId, o.cacheKey.value), o.now);
          r.cursor.name == if served then None else Some(CALLBACK_POSTPROCESS))
  }

  lemma FirstPassEnds(cat: Catalog, s: Site, o: Oracle, cur: Option<Cursor>, response: Json, w: Ctx)
    requires s.ep == cat(s.sepId) && AtAuth(cur) && w.cacheKey == "" && w.cacheTtl == 0
    ensures EndsRightly(cat, w.table, s.sepId, o, AuthFun(SavedCtx(cur)), Call(o, s, cur, response, w))
  {
    NamesDiffer();
    FirstPassIs(o, s, cur, response, w);
    var r := FirstPass(o, s, SavedCtx(cur), w);
    if AuthPasses(o, AuthFun(SavedCtx(cur))) && o.cacheKey.Some? {
      var p := Lookup(o, s, w.table);
      var k := Key(s.sepId, o.cacheKey.value);
      ServedIff(w.table, s.ep, k, InvokeKeys.Compose(s.invokeId, s.eventId), o.now);
      if p.response.None? {
        MissEnds(o, s, SavedCtx(cur), AfterLookup(w, p).(log := AfterLookup(w, p).log + [Invoked]));
      }
    }
  }

  /** After a miss the adaptor's reply decides; nothing is in the way of storing it. */
  lemma MissEnds(o: Oracle, s: Site, ctx: Option<string>, w: Ctx)
    requires ReallyCache(w.cacheKey, w.cacheTtl, s.ep) ==> Key(s.sepId, w.cacheKey) !in w.table
    ensures match AfterMiss(o, s, ctx, w)
            case Held(cur, _) => o.adaptor == Some(Pending) && cur == Cursor(Some(CALLBACK_POSTPROCESS), ctx, None)
            case Replied(r, _) =>
              exists raw, d :: o.adaptor == Some(Done(raw)) && o.post(raw) == Some(d) && r == Done(d)
            case Threw(_) =>
              || o.adaptor.None? || o.adaptor.value.Missing?
              || exists raw :: o.adaptor == Some(Done(raw)) && o.post(raw).None?
  {}

  /**
   * An emission, in any state.  The event ends processed exactly when
   * authentication passes and an answer is had, from the cache or from the
   * adaptor and its postprocessing; its response is then that answer.  It waits
   * exactly when authentication suspends it or the answer is pending.  Otherwise
   * it fails.  No other event changes.
   */
  lemma EmitEnds(cat: Catalog, s: Sys, id: string, sepId: string, o: Oracle)
    requires id !in s.events
    ensures var s' := Take(cat, s, DoEmit(id, sepId, o));
            var passes := AuthPasses(o, "checkSepAuth");
            && id in s'.events && s'.events == s.events[id := s'.events[id]]
            && var ev := s'.events[id];
               && ev.sepId == sepId
               && (ev.status.Processed? <==> passes && exists d :: Obtains(cat, s.table, sepId, o, Done(d)))
               && (ev.status.Processed? ==> ev.resp.Some? && Obtains(cat, s.table, sepId, o, Done(ev.resp.value)))
               && (!ev.status.Processed? ==> ev.resp.None?)
               && (ev.status.Waiting? <==> (o.auth("checkSepAuth").Suspended? && !passes)
                                           || (passes && Obtains(cat, s.table, sepId, o, Pending)))
               && (ev.status.Waiting? && !passes ==>
                     var f := o.auth("checkSepAuth").resumeFunName;
                     ev.inv == Some(Inv(Cursor(Some(AUTH), Some(f), None), "", 0, [])))
  {
    var w := Ctx(s.table, [], "", 0, []);
    FirstPassEnds(cat, SiteOf(cat, id, sepId), o, None, Undefined, w);
    FirstPassIs(o, SiteOf(cat, id, sepId), None, Undefined, w);
  }

  /**
   * A re-entry after an authentication suspension.  The response is recorded
   * exactly when authentication now passes and an answer is had, but the event
   * ends as failed in every case.
   */
  lemma ReentryEnds(cat: Catalog, s: Sys, id: string, response: Json, o: Oracle)
    requires id in s.events && IsAtAuth(s.events[id])
    ensures var s' := Take(cat, s, DoCallback(id, response, o));
            var saved := s.events[id].inv.value.cursor.ctx;
            var passes := AuthPasses(o, if saved.None? || saved.value == "" then "checkSepAuth" else saved.value);
            && id in s'.events && s'.events == s.events[id := s'.events[id]]
            && var ev := s'.events[id];
               && ev.sepId == s.events[id].sepId && ev.status.Failed?
               && (passes && (exists d :: Obtains(cat, s.table, ev.sepId, o, Done(d))) ==>
                     ev.resp.Some? && Obtains(cat, s.table, ev.sepId, o, Done(ev.resp.value)))
               && (!(passes && exists d :: Obtains(cat, s.table, ev.sepId, o, Done(d))) ==> ev.resp == s.events[id].resp)
  {
    var inv := s.events[id].inv.value;
    FirstPassEnds(cat, SiteOf(cat, id, s.events[id].sepId), o, Some(inv.cursor), response, CtxOf(s, inv));
  }

  /**
   * What an emission leaves in the cache.  After a miss of an endpoint that
   * caches, the row of its key is the answer or the pending marker, under this
   * event; if it failed, the row is gone.  A pending row that is served to an
   * async endpoint's caller lists it.  Otherwise nothing changes.
   */
  lemma EmitStores(cat: Catalog, s: Sys, id: string, sepId: string, o: Oracle)
    requires id !in s.events && o.cacheKey.Some?
    ensures var k := Key(sepId, o.cacheKey.value);
            var s' := Take(cat, s, DoEmit(id, sepId, o));
            var ev := s'.events[id];
            var passes := AuthPasses(o, "checkSepAuth");
            s'.table ==
              if !passes || !CachingOn(cat(sepId), k) then s.table
              else if Serves(s.table, cat(sepId), k, o.now) then
                if cat(sepId).isAsync && s.table[k].response.Pending? then Joined(s.table, k, KeyFor(id)) else s.table
              else if ev.status.Processed? && ev.resp.Some? then s.table[k := Row(Done(ev.resp.value), id, [], o.now)]
              else if ev.status.Waiting? then s.table[k := Row(Pending, id, [], o.now)]
              else s.table - {k}
  {
    var site := SiteOf(cat, id, sepId);
    var w := Ctx(s.table, [], "", 0, []);
    FirstPassIs(o, site, None, Undefined, w);
    if AuthPasses(o, "checkSepAuth") {
      var p := Lookup(o, site, s.table);
      var w1 := AfterLookup(w, p).(log := AfterLookup(w, p).log + [Invoked]);
      if p.response.None? {
        MissStores(o, site, None, w1);
      }
    }
  }

  /** What is stored after a miss: nothing exactly if the pass fails. */
  lemma MissStores(o: Oracle, s: Site, ctx: Option<string>, w: Ctx)
    requires ReallyCache(w.cacheKey, w.cacheTtl, s.ep) ==> Key(s.sepId, w.cacheKey) !in w.table
    ensures var k := Key(s.sepId, w.cacheKey);
            var on := ReallyCache(w.cacheKey, w.cacheTtl, s.ep);
            match AfterMiss(o, s, ctx, w)
            case Held(_, w') => w'.table == if on then w.table[k := Row(Pending, s.eventId, [], o.now)] else w.table
            case Replied(r, w') => r.Done? && w'.table == if on then w.table[k := Row(r, s.eventId, [], o.now)] else w.table
            case Threw(w') => w'.table == w.table
  {}

  // ---------------------------------------------------- each step keeps `Good`

  /** An event about to make a first pass: new, or suspended at authentication. */
  ghost predicate Entering(s: Sys, id: string, sepId: string) {
    id in s.events ==> IsAtAuth(s.events[id]) && s.events[id].sepId == sepId
  }

  lemma KeysDiffer(ik: string)
    ensures IdOf(KeyFor(ik)) == ik
  {
    InvokeKeys.DirectKey(ik);
  }

  /** Facts about the other events that every first pass keeps. */
  lemma EnteringKeeps(cat: Catalog, s: Sys, id: string, ev: Event, w: Ctx)
    requires Good(cat, s) && Entering(s, id, ev.sepId) && w.resumed == []
    ensures var s' := Put(s, id, ev, w);
            && AllUpheld(cat, s') && SingleNotes(cat, s')
            && (forall i :: 0 <= i < |s.outbox| ==> IdOf(s.outbox[i].invokeKey) != id)
            && (forall k: Key, ik :: Coalesces(cat, k.sepId) && PendingAt(s.table, k) && ik in s.table[k].invokeKeys ==>
                  IdOf(ik) != id)
  {
    var s' := Put(s, id, ev, w);
    assert s'.outbox == s.outbox;
    forall i | 0 <= i < |s'.verdicts| && Coalesces(cat, s'.verdicts[i].k.sepId)
      ensures Upheld(s', s'.verdicts[i])
    {
      assert Upheld(s, s.verdicts[i]);
      assert forall ik :: ik in s.verdicts[i].observers ==> Served(s, s.verdicts[i], ik);
    }
  }

  /** Pending rows stay, with their owner and at least their keys. */
  ghost predicate RowsStay(cat: Catalog, t: Table, t': Table) {
    forall k: Key :: Coalesces(cat, k.sepId) && PendingAt(t, k) ==>
      PendingAt(t', k) && t'[k].sourceId == t[k].sourceId && forall ik :: ik in t[k].invokeKeys ==> ik in t'[k].invokeKeys
  }

  /** Rows pending afterwards were pending before, or are this event's own. */
  ghost predicate RowsComeFrom(cat: Catalog, t: Table, t': Table, id: string, ev: Event) {
    forall k: Key :: Coalesces(cat, k.sepId) && PendingAt(t', k) && !PendingAt(t, k) ==>
      && k.cacheKey != "" && t'[k].sourceId == id && ev.sepId == k.sepId
      && (ev.status.Waiting? ==> IsOwner(ev) && OwnKey(ev) == k)
  }

  lemma AttendedStays(cat: Catalog, s: Sys, s': Sys, id: string, ev: Event)
    requires Attended(cat, s) && s'.events == s.events[id := ev] && s'.outbox == s.outbox
    requires RowsStay(cat, s.table, s'.table)
    requires IsObserver(ev) && Coalesces(cat, ev.sepId) ==> Registered(s', id)
    ensures Attended(cat, s')
  {
    forall x | x in s'.events && IsObserver(s'.events[x]) && Coalesces(cat, s'.events[x].sepId)
      ensures Registered(s', x) || Notified(s', x)
    {
      assert x != id ==> Registered(s, x) || Notified(s, x);
    }
  }

  lemma FlightsStay(cat: Catalog, s: Sys, s': Sys, id: string, ev: Event)
    requires Flights(cat, s) && s'.events == s.events[id := ev]
    requires RowsStay(cat, s.table, s'.table) && RowsComeFrom(cat, s.table, s'.table, id, ev)
    requires id in s.events ==> (ev.status.Waiting? ==> IsAtAuth(s.events[id])) && ev.sepId == s.events[id].sepId
    requires IsOwner(ev) && OwnKey(ev).cacheKey != "" && Coalesces(cat, ev.sepId) ==>
               PendingAt(s'.table, OwnKey(ev)) && s'.table[OwnKey(ev)].sourceId == id
    requires forall k: Key :: Coalesces(cat, k.sepId) && PendingAt(s.table, k) ==>
               s'.table[k].sourceId != id || !ev.status.Waiting?
    ensures Flights(cat, s')
  {}

  lemma RegistersStay(cat: Catalog, s: Sys, s': Sys, id: string, ev: Event)
    requires Registers(cat, s) && s'.events == s.events[id := ev] && s'.outbox == s.outbox
    requires forall k: Key, ik :: Coalesces(cat, k.sepId) && PendingAt(s.table, k) && ik in s.table[k].invokeKeys ==>
               IdOf(ik) != id
    requires forall i :: 0 <= i < |s.outbox| ==> IdOf(s.outbox[i].invokeKey) != id
    requires forall k: Key :: Coalesces(cat, k.sepId) && PendingAt(s'.table, k) ==>
               || s'.table[k].invokeKeys == []
               || (PendingAt(s.table, k) && s'.table[k].invokeKeys == s.table[k].invokeKeys)
               || (PendingAt(s.table, k) && s'.table[k].invokeKeys == s.table[k].invokeKeys + [KeyFor(id)] && ObservedAt(ev, k))
    ensures Registers(cat, s')
  {
    KeysDiffer(id);
    forall k: Key | Coalesces(cat, k.sepId) && PendingAt(s'.table, k)
      ensures NoDup(s'.table[k].invokeKeys)
      ensures forall ik :: ik in s'.table[k].invokeKeys ==> IdOf(ik) in s'.events && ObservedAt(s'.events[IdOf(ik)], k)
      ensures forall i :: 0 <= i < |s'.outbox| ==> s'.outbox[i].invokeKey !in s'.table[k].invokeKeys
    {
      if PendingAt(s.table, k) {
        assert KeyFor(id) !in s.table[k].invokeKeys;
      }
    }
  }

  /** Keys stay good when the rows' keys are old ones or the entering event's. */
  lemma GoodKeysStay(s: Sys, s': Sys, id: string, ev: Event)
    requires GoodKeys(s) && Entering(s, id, ev.sepId)
    requires s'.events == s.events[id := ev] && s'.outbox == s.outbox
    requires forall k, ik :: k in s'.table && ik in s'.table[k].invokeKeys ==>
               || (k in s.table && ik in s.table[k].invokeKeys)
               || (ik == KeyFor(id) && k.sepId == ev.sepId && (ev.status.Waiting? ==> IsObserver(ev)))
    ensures GoodKeys(s')
  {
    KeysDiffer(id);
    assert forall ik :: GoodKey(s, ik) ==> GoodKey(s', ik);
    forall k, ik | k in s'.table && ik in s'.table[k].invokeKeys
      ensures GoodKey(s', ik) && s'.events[IdOf(ik)].sepId == k.sepId
    {
      if k in s.table && ik in s.table[k].invokeKeys {
        assert GoodKey(s, ik);
      }
    }
  }

  /** A first pass that leaves the pending rows alone. */
  lemma QuietGood(cat: Catalog, s: Sys, id: string, ev: Event, w: Ctx)
    requires Good(cat, s) && Entering(s, id, ev.sepId) && w.resumed == []
    requires KeepsObservers(s.table, w.table) && SamePending(cat, s.table, w.table)
    requires ev.status.Waiting? ==>
               || IsAtAuth(ev)
               || (IsOwner(ev) && (OwnKey(ev).cacheKey == "" || !Coalesces(cat, ev.sepId)))
               || (IsObserver(ev) && !Coalesces(cat, ev.sepId))
    ensures Good(cat, Put(s, id, ev, w))
  {
    EnteringKeeps(cat, s, id, ev, w);
    var s' := Put(s, id, ev, w);
    assert s'.outbox == s.outbox;
    assert GoodKeys(s') by { GoodKeysStay(s, s', id, ev); }
    assert Flights(cat, s') by { FlightsStay(cat, s, s', id, ev); }
    assert Registers(cat, s') by { RegistersStay(cat, s, s', id, ev); }
    assert Attended(cat, s') by { AttendedStays(cat, s, s', id, ev); }
  }

  lemma JoinRows(cat: Catalog, s: Sys, id: string, ev: Event, t: Table, k: Key)
    requires PendingAt(s.table, k) && t == Joined(s.table, k, KeyFor(id))
    ensures RowsStay(cat, s.table, t) && RowsComeFrom(cat, s.table, t, id, ev)
    ensures PendingAt(t, k) && KeyFor(id) in t[k].invokeKeys
    ensures forall j: Key :: PendingAt(t, j) ==>
              PendingAt(s.table, j) && t[j].invokeKeys == s.table[j].invokeKeys + if j == k then [KeyFor(id)] else []
    ensures forall j, ik :: j in t && ik in t[j].invokeKeys ==>
              (j in s.table && ik in s.table[j].invokeKeys) || (ik == KeyFor(id) && j == k)
  {}

  /** A first pass that joins a pending row; its event waits, or fails when this was a re-entry. */
  lemma JoinGood(cat: Catalog, s: Sys, id: string, ev: Event, w: Ctx, k: Key)
    requires Good(cat, s) && Entering(s, id, ev.sepId) && w.resumed == []
    requires PendingAt(s.table, k) && w.table == Joined(s.table, k, KeyFor(id))
    requires k.sepId == ev.sepId && ObservedAt(ev, k)
    ensures Good(cat, Put(s, id, ev, w))
  {
    EnteringKeeps(cat, s, id, ev, w);
    KeysDiffer(id);
    var s' := Put(s, id, ev, w);
    assert s'.outbox == s.outbox;
    JoinRows(cat, s, id, ev, w.table, k);
    assert GoodKeys(s') by { GoodKeysStay(s, s', id, ev); }
    assert Flights(cat, s') by { FlightsStay(cat, s, s', id, ev); }
    assert Registers(cat, s') by { RegistersStay(cat, s, s', id, ev); }
    assert Attended(cat, s') by { AttendedStays(cat, s, s', id, ev); }
  }

  lemma OwnRows(cat: Catalog, s: Sys, id: string, ev: Event, t: Table, k: Key, now: int)
    requires !PendingAt(s.table, k) && t == s.table[k := Row(Pending, id, [], now)]
    requires k.sepId == ev.sepId && k.cacheKey != "" && (ev.status.Waiting? ==> IsOwner(ev) && OwnKey(ev) == k)
    ensures RowsStay(cat, s.table, t) && RowsComeFrom(cat, s.table, t, id, ev)
    ensures forall j: Key :: Coalesces(cat, j.sepId) && PendingAt(t, j) ==>
              t[j].invokeKeys == [] || (PendingAt(s.table, j) && t[j].invokeKeys == s.table[j].invokeKeys)
    ensures forall j, ik :: j in t && ik in t[j].invokeKeys ==> j in s.table && ik in s.table[j].invokeKeys
  {}

  /** A first pass that takes a free row; its event waits as owner, or fails when this was a re-entry. */
  lemma OwnGood(cat: Catalog, s: Sys, id: string, ev: Event, w: Ctx, k: Key, now: int)
    requires Good(cat, s) && Entering(s, id, ev.sepId) && w.resumed == []
    requires !PendingAt(s.table, k) && w.table == s.table[k := Row(Pending, id, [], now)]
    requires k.sepId == ev.sepId && Coalesces(cat, k.sepId) && k.cacheKey != ""
    requires ev.status.Waiting? ==> IsOwner(ev) && OwnKey(ev) == k
    ensures Good(cat, Put(s, id, ev, w))
  {
    EnteringKeeps(cat, s, id, ev, w);
    var s' := Put(s, id, ev, w);
    assert s'.outbox == s.outbox;
    OwnRows(cat, s, id, ev, w.table, k, now);
    assert GoodKeys(s') by { GoodKeysStay(s, s', id, ev); }
    assert Flights(cat, s') by { FlightsStay(cat, s, s', id, ev); }
    assert Registers(cat, s') by { RegistersStay(cat, s, s', id, ev); }
    assert Attended(cat, s') by { AttendedStays(cat, s, s', id, ev); }
  }

  /** Keys stay good when a waiting event ends and no row gets new keys. */
  lemma KeysEnd(s: Sys, s': Sys, id: string, ev: Event)
    requires GoodKeys(s) && id in s.events && s'.events == s.events[id := ev]
    requires ev.sepId == s.events[id].sepId && !ev.status.Waiting?
    requires forall k :: k in s'.table ==> k in s.table && s'.table[k].invokeKeys == s.table[k].invokeKeys
    ensures forall k, ik :: k in s'.table && ik in s'.table[k].invokeKeys ==>
              GoodKey(s', ik) && s'.events[IdOf(ik)].sepId == k.sepId
    ensures forall ik :: GoodKey(s, ik) ==> GoodKey(s', ik)
  {}

  /** A waiting owner that ends without touching the cache. */
  lemma EndGood(cat: Catalog, s: Sys, id: string, ev: Event, w: Ctx)
    requires Good(cat, s) && id in s.events && IsOwner(s.events[id]) && ev.sepId == s.events[id].sepId
    requires !ev.status.Waiting? && w.table == s.table && w.resumed == []
    ensures Good(cat, Put(s, id, ev, w))
  {
    var s' := Put(s, id, ev, w);
    assert s'.outbox == s.outbox;
    KeysEnd(s, s', id, ev);
    FlightsEnd(cat, s, s', id, ev, None);
    AttendedStays(cat, s, s', id, ev);
    EndUpholds(cat, s, s', id, ev);
    EndKeepsRegisters(cat, s, s', id, ev);
  }

  lemma EndUpholds(cat: Catalog, s: Sys, s': Sys, id: string, ev: Event)
    requires AllUpheld(cat, s) && id in s.events && IsOwner(s.events[id])
    requires s'.events == s.events[id := ev] && s'.outbox == s.outbox && s'.verdicts == s.verdicts
    ensures AllUpheld(cat, s')
  {
    forall i | 0 <= i < |s'.verdicts| && Coalesces(cat, s'.verdicts[i].k.sepId)
      ensures Upheld(s', s'.verdicts[i])
    {
      assert Upheld(s, s.verdicts[i]);
    }
  }

  lemma EndKeepsRegisters(cat: Catalog, s: Sys, s': Sys, id: string, ev: Event)
    requires Registers(cat, s) && id in s.events && IsOwner(s.events[id])
    requires s'.events == s.events[id := ev] && s'.outbox == s.outbox && s'.table == s.table
    ensures Registers(cat, s')
  {}

  /** Of the pending rows at most one, this owner's, stops being pending. */
  ghost predicate RowsButOne(cat: Catalog, t: Table, t': Table, done: Option<Key>) {
    forall k: Key :: Coalesces(cat, k.sepId) ==>
      if done == Some(k) then !PendingAt(t', k)
      else (PendingAt(t, k) <==> PendingAt(t', k)) && (PendingAt(t, k) ==> t'[k] == t[k])
  }

  lemma FlightsEnd(cat: Catalog, s: Sys, s': Sys, id: string, ev: Event, done: Option<Key>)
    requires Flights(cat, s) && s'.events == s.events[id := ev]
    requires id in s.events && ev.sepId == s.events[id].sepId && !ev.status.Waiting?
    requires RowsButOne(cat, s.table, s'.table, done)
    requires done.Some? ==> done.value in s.table && s.table[done.value].sourceId == id
    ensures Flights(cat, s')
  {}

  /** The row an owner's callback resolves, if any. */
  function Resolvable(cat: Catalog, s: Sys, ev: Event): Option<Key>
    requires ev.inv.Some?
  {
    if ReallyCache(OwnKey(ev).cacheKey, ev.inv.value.cacheTtl, cat(ev.sepId)) && OwnKey(ev) in s.table
    then Some(OwnKey(ev)) else None
  }

  /** The state after an owner's callback succeeded with `d`. */
  ghost predicate ResolvedBy(cat: Catalog, s: Sys, s': Sys, id: string, d: Json)
    requires id in s.events && s.events[id].inv.Some?
  {
    var ev := s.events[id];
    var done := Resolvable(cat, s, ev);
    && s'.events == s.events[id := ev.(status := Failed, inv := None, resp := Some(d))]
    && (done.None? ==> s'.table == s.table && s'.outbox == s.outbox && s'.verdicts == s.verdicts)
    && (done.Some? ==>
          var keys := s.table[done.value].invokeKeys;
          && s'.table == s.table[done.value := s.table[done.value].(response := Done(d))]
          && s'.outbox == s.outbox + Notes(Flatten(Groups(keys, 3)), d)
          && s'.verdicts == s.verdicts + [Verdict(done.value, id, d, Waiters(s, keys))])
  }

  /** All observers of a coalescing row are resumed: its keys are distinct. */
  lemma ResumesAll(cat: Catalog, s: Sys, k: Key)
    requires k in s.table
    ensures forall ik :: ik in Flatten(Groups(s.table[k].invokeKeys, 3)) ==> ik in s.table[k].invokeKeys
    ensures Registers(cat, s) && Coalesces(cat, k.sepId) && PendingAt(s.table, k) ==>
              NoDup(s.table[k].invokeKeys) && Flatten(Groups(s.table[k].invokeKeys, 3)) == s.table[k].invokeKeys
  {
    GroupsKeep(s.table[k].invokeKeys, 3);
    if Registers(cat, s) && Coalesces(cat, k.sepId) && PendingAt(s.table, k) {
      GroupsPartition(s.table[k].invokeKeys, 3);
    }
  }

  lemma ResolveKeepsKeys(cat: Catalog, s: Sys, s': Sys, id: string, d: Json)
    requires GoodKeys(s) && id in s.events && IsOwner(s.events[id]) && ResolvedBy(cat, s, s', id, d)
    ensures GoodKeys(s')
  {
    var done := Resolvable(cat, s, s.events[id]);
    KeysEnd(s, s', id, s'.events[id]);
    if done.Some? {
      ResumesAll(cat, s, done.value);
      forall i | 0 <= i < |s'.outbox|
        ensures GoodKey(s, s'.outbox[i].invokeKey)
      {
        if i >= |s.outbox| {
          assert s'.outbox[i].invokeKey in s.table[done.value].invokeKeys;
        }
      }
    }
  }

  lemma ResolveKeepsRegisters(cat: Catalog, s: Sys, s': Sys, id: string, d: Json)
    requires GoodKeys(s) && Registers(cat, s) && Flights(cat, s) && id in s.events && IsOwner(s.events[id])
    requires ResolvedBy(cat, s, s', id, d)
    ensures Registers(cat, s')
  {
    var done := Resolvable(cat, s, s.events[id]);
    if done.Some? {
      ResumesAll(cat, s, done.value);
    }
    forall k: Key | Coalesces(cat, k.sepId) && PendingAt(s'.table, k)
      ensures forall ik :: ik in s'.table[k].invokeKeys ==> IdOf(ik) in s'.events && ObservedAt(s'.events[IdOf(ik)], k)
      ensures forall i :: 0 <= i < |s'.outbox| ==> s'.outbox[i].invokeKey !in s'.table[k].invokeKeys
    {
      assert PendingAt(s.table, k) && s'.table[k] == s.table[k];
      forall i | 0 <= i < |s'.outbox|
        ensures s'.outbox[i].invokeKey !in s'.table[k].invokeKeys
      {
        if i >= |s.outbox| {
          var ik := s'.outbox[i].invokeKey;
          assert ik in s.table[done.value].invokeKeys;
          assert s.events[IdOf(ik)].sepId == done.value.sepId;
          assert Coalesces(cat, done.value.sepId) ==> PendingAt(s.table, done.value);
        }
      }
    }
  }

  lemma ResolveKeepsAttended(cat: Catalog, s: Sys, s': Sys, id: string, d: Json)
    requires Registers(cat, s) && Attended(cat, s) && id in s.events && IsOwner(s.events[id])
    requires ResolvedBy(cat, s, s', id, d)
    ensures Attended(cat, s')
  {
    var done := Resolvable(cat, s, s.events[id]);
    forall x | x in s'.events && IsObserver(s'.events[x]) && Coalesces(cat, s'.events[x].sepId)
      ensures Registered(s', x) || Notified(s', x)
    {
      assert x != id;
      if Notified(s, x) {
        var i :| 0 <= i < |s.outbox| && s.outbox[i].invokeKey == KeyFor(x);
        assert s'.outbox[i] == s.outbox[i];
      } else if done == Some(OwnKey(s.events[x])) {
        ResumesAll(cat, s, done.value);
        var keys := s.table[done.value].invokeKeys;
        var j :| 0 <= j < |keys| && keys[j] == KeyFor(x);
        assert s'.outbox[|s.outbox| + j].invokeKey == KeyFor(x);
      }
    }
  }

  /** A key of the row being resolved has no resume on its way yet. */
  lemma NewNoteIsNew(cat: Catalog, s: Sys, k: Key, ik: string, i: nat)
    requires GoodKeys(s) && Registers(cat, s) && k in s.table && ik in s.table[k].invokeKeys
    requires Coalesces(cat, k.sepId) ==> PendingAt(s.table, k)
    requires i < |s.outbox| && OfCoalescing(cat, s, s.outbox[i].invokeKey)
    ensures s.outbox[i].invokeKey != ik
  {
    assert s.events[IdOf(ik)].sepId == k.sepId;
  }

  lemma ResolveKeepsSingleNotes(cat: Catalog, s: Sys, s': Sys, id: string, d: Json)
    requires GoodKeys(s) && Registers(cat, s) && Flights(cat, s) && SingleNotes(cat, s)
    requires id in s.events && IsOwner(s.events[id]) && ResolvedBy(cat, s, s', id, d)
    ensures SingleNotes(cat, s')
  {
    var done := Resolvable(cat, s, s.events[id]);
    if done.Some? {
      var k := done.value;
      var keys := s.table[k].invokeKeys;
      ResumesAll(cat, s, k);
      forall i, j | 0 <= i < j < |s'.outbox| && OfCoalescing(cat, s', s'.outbox[i].invokeKey)
        ensures s'.outbox[i].invokeKey != s'.outbox[j].invokeKey
      {
        if j >= |s.outbox| {
          var ik := s'.outbox[j].invokeKey;
          assert ik in Flatten(Groups(keys, 3));
          if i < |s.outbox| {
            NewNoteIsNew(cat, s, k, ik, i);
          } else {
            assert s'.outbox[i].invokeKey in Flatten(Groups(keys, 3));
            assert s.events[IdOf(s'.outbox[i].invokeKey)].sepId == k.sepId;
            assert NoDup(Flatten(Groups(keys, 3)));
          }
        }
      }
    }
  }

  /** What was served stays served when an owner ends. */
  lemma ServedStays(s: Sys, s': Sys, id: string, ev: Event, v: Verdict)
    requires Upheld(s, v) && id in s.events && IsOwner(s.events[id]) && ev.sepId == s.events[id].sepId
    requires s'.events == s.events[id := ev] && (forall n :: n in s.outbox ==> n in s'.outbox)
    ensures Upheld(s', v)
  {
    forall ik | ik in v.observers
      ensures Served(s', v, ik)
    {
      assert Served(s, v, ik);
    }
  }

  lemma NewVerdictUpheld(cat: Catalog, s: Sys, s': Sys, id: string, d: Json, k: Key)
    requires GoodKeys(s) && Registers(cat, s) && id in s.events && IsOwner(s.events[id])
    requires ResolvedBy(cat, s, s', id, d) && Resolvable(cat, s, s.events[id]) == Some(k)
    requires Coalesces(cat, k.sepId) && PendingAt(s.table, k)
    ensures Upheld(s', Verdict(k, id, d, Waiters(s, s.table[k].invokeKeys)))
  {
    var keys := s.table[k].invokeKeys;
    ResumesAll(cat, s, k);
    forall ik | ik in Waiters(s, keys)
      ensures Served(s', Verdict(k, id, d, Waiters(s, keys)), ik)
    {
      var j :| 0 <= j < |keys| && keys[j] == ik;
      assert s'.outbox[|s.outbox| + j] == Note(ik, d);
      assert GoodKey(s, ik);
    }
  }

  lemma ResolveUpholds(cat: Catalog, s: Sys, s': Sys, id: string, d: Json)
    requires GoodKeys(s) && Registers(cat, s) && Flights(cat, s) && AllUpheld(cat, s)
    requires id in s.events && IsOwner(s.events[id]) && ResolvedBy(cat, s, s', id, d)
    ensures AllUpheld(cat, s')
  {
    var done := Resolvable(cat, s, s.events[id]);
    forall i | 0 <= i < |s'.verdicts| && Coalesces(cat, s'.verdicts[i].k.sepId)
      ensures Upheld(s', s'.verdicts[i])
    {
      if i < |s.verdicts| {
        ServedStays(s, s', id, s'.events[id], s.verdicts[i]);
      } else {
        NewVerdictUpheld(cat, s, s', id, d, done.value);
      }
    }
  }

  /** An owner's callback that succeeds. */
  lemma ResolveGood(cat: Catalog, s: Sys, s': Sys, id: string, d: Json)
    requires Good(cat, s) && id in s.events && IsOwner(s.events[id]) && ResolvedBy(cat, s, s', id, d)
    ensures Good(cat, s')
  {
    assert GoodKeys(s') by { ResolveKeepsKeys(cat, s, s', id, d); }
    assert Registers(cat, s') by { ResolveKeepsRegisters(cat, s, s', id, d); }
    assert Attended(cat, s') by { ResolveKeepsAttended(cat, s, s', id, d); }
    assert SingleNotes(cat, s') by { ResolveKeepsSingleNotes(cat, s, s', id, d); }
    assert AllUpheld(cat, s') by { ResolveUpholds(cat, s, s', id, d); }
    assert Flights(cat, s') by {
      var done := Resolvable(cat, s, s.events[id]);
      FlightsEnd(cat, s, s', id, s'.events[id], if done.Some? && Coalesces(cat, done.value.sepId) then done else None);
    }
  }

  lemma RemoveAt<T>(q: seq<T>, i: nat)
    requires i < |q|
    ensures |Remove(q, i)| == |q| - 1
    ensures forall j :: 0 <= j < |q| - 1 ==> Remove(q, i)[j] == q[if j < i then j else j + 1]
    ensures forall x :: x in q && x != q[i] ==> x in Remove(q, i)
  {
    forall x | x in q && x != q[i]
      ensures x in Remove(q, i)
    {
      var j :| 0 <= j < |q| && q[j] == x;
      assert Remove(q, i)[if j < i then j else j - 1] == x;
    }
  }

  /** The state after the resume at position `i` was delivered, or refused by an event that no longer waits. */
  ghost predicate DeliveredBy(s: Sys, s': Sys, i: nat, id: string)
    requires i < |s.outbox| && id in s.events
  {
    && id == IdOf(s.outbox[i].invokeKey)
    && s'.table == s.table && s'.verdicts == s.verdicts && s'.outbox == Remove(s.outbox, i)
    && s'.events == if s.events[id].status.Waiting?
                    then s.events[id := s.events[id].(status := Failed, inv := None, resp := Some(s.outbox[i].data))]
                    else s.events
  }

  lemma DeliverKeepsAttended(cat: Catalog, s: Sys, s': Sys, i: nat, id: string)
    requires GoodKeys(s) && Attended(cat, s) && i < |s.outbox| && id in s.events && DeliveredBy(s, s', i, id)
    ensures Attended(cat, s')
  {
    RemoveAt(s.outbox, i);
    forall x | x in s'.events && IsObserver(s'.events[x]) && Coalesces(cat, s'.events[x].sepId)
      ensures Registered(s', x) || Notified(s', x)
    {
      assert x != id;
      if Notified(s, x) {
        var j :| 0 <= j < |s.outbox| && s.outbox[j].invokeKey == KeyFor(x);
        KeysDiffer(x);
        assert j != i;
        assert s'.outbox[if j < i then j else j - 1].invokeKey == KeyFor(x);
      } else {
        assert Registered(s, x);
      }
    }
  }

  lemma DeliverKeepsSingleNotes(cat: Catalog, s: Sys, s': Sys, i: nat, id: string)
    requires SingleNotes(cat, s) && i < |s.outbox| && id in s.events && DeliveredBy(s, s', i, id)
    ensures SingleNotes(cat, s')
  {
    RemoveAt(s.outbox, i);
    forall a, b | 0 <= a < b < |s'.outbox| && OfCoalescing(cat, s', s'.outbox[a].invokeKey)
      ensures s'.outbox[a].invokeKey != s'.outbox[b].invokeKey
    {
      var a0, b0 := if a < i then a else a + 1, if b < i then b else b + 1;
      assert s'.outbox[a] == s.outbox[a0] && s'.outbox[b] == s.outbox[b0] && a0 < b0;
      assert OfCoalescing(cat, s, s.outbox[a0].invokeKey);
    }
  }

  lemma DeliverKeepsRegisters(cat: Catalog, s: Sys, s': Sys, i: nat, id: string)
    requires GoodKeys(s) && Registers(cat, s) && i < |s.outbox| && id in s.events && DeliveredBy(s, s', i, id)
    ensures Registers(cat, s')
  {
    RemoveAt(s.outbox, i);
    forall k: Key | Coalesces(cat, k.sepId) && PendingAt(s'.table, k)
      ensures forall ik :: ik in s'.table[k].invokeKeys ==> IdOf(ik) in s'.events && ObservedAt(s'.events[IdOf(ik)], k)
      ensures forall j :: 0 <= j < |s'.outbox| ==> s'.outbox[j].invokeKey !in s'.table[k].invokeKeys
    {
      forall ik | ik in s'.table[k].invokeKeys
        ensures IdOf(ik) in s'.events && ObservedAt(s'.events[IdOf(ik)], k)
      {
        assert GoodKey(s, ik) && GoodKey(s, s.outbox[i].invokeKey);
        assert IdOf(ik) != id;
      }
    }
  }

  lemma DeliverUpholds(cat: Catalog, s: Sys, s': Sys, i: nat, id: string)
    requires GoodKeys(s) && SingleNotes(cat, s) && AllUpheld(cat, s)
    requires i < |s.outbox| && id in s.events && DeliveredBy(s, s', i, id)
    ensures AllUpheld(cat, s')
  {
    RemoveAt(s.outbox, i);
    forall n | 0 <= n < |s'.verdicts| && Coalesces(cat, s'.verdicts[n].k.sepId)
      ensures Upheld(s', s'.verdicts[n])
    {
      var v := s.verdicts[n];
      assert Upheld(s, v);
      forall ik | ik in v.observers
        ensures Served(s', v, ik)
      {
        assert Served(s, v, ik);
        if IdOf(ik) == id && s.events[id].status.Waiting? {
          var j :| 0 <= j < |s.outbox| && s.outbox[j] == Note(ik, v.data);
          assert GoodKey(s, s.outbox[i].invokeKey) && s.outbox[i].invokeKey == ik;
          assert OfCoalescing(cat, s, s.outbox[i].invokeKey) && OfCoalescing(cat, s, s.outbox[j].invokeKey);
          assert j == i;
        }
      }
    }
  }

  /** The delivery of a triggered resume. */
  lemma DeliverGood(cat: Catalog, s: Sys, s': Sys, i: nat, id: string)
    requires Good(cat, s) && i < |s.outbox| && id in s.events && DeliveredBy(s, s', i, id)
    ensures Good(cat, s')
  {
    RemoveAt(s.outbox, i);
    assert GoodKey(s, s.outbox[i].invokeKey);
    if s.events[id].status.Waiting? {
      KeysEnd(s, s', id, s'.events[id]);
      FlightsEnd(cat, s, s', id, s'.events[id], None);
    }
    DeliverKeepsAttended(cat, s, s', i, id);
    DeliverKeepsSingleNotes(cat, s, s', i, id);
    DeliverKeepsRegisters(cat, s, s', i, id);
    DeliverUpholds(cat, s, s', i, id);
  }

  /** Any first pass, whatever becomes of its event. */
  lemma PassGood(cat: Catalog, s: Sys, id: string, ev: Event, o: Oracle, w: Ctx, r: Result)
    requires Good(cat, s) && Entering(s, id, ev.sepId)
    requires w.table == s.table && w.cacheKey == "" && w.cacheTtl == 0
    requires PassEffect(cat, o, SiteOf(cat, id, ev.sepId), w, r)
    requires r.Held? ==> ev.inv == Kept(r.cursor, r.world) && ev.status != Processed
    requires !r.Held? ==> !ev.status.Waiting?
    ensures Good(cat, Put(s, id, ev, r.world))
  {
    NamesDiffer();
    if !r.Held? {
      QuietGood(cat, s, id, ev, r.world);
    } else {
      var k := Key(ev.sepId, r.world.cacheKey);
      if r.cursor.name == Some(AUTH) {
        QuietGood(cat, s, id, ev, r.world);
      } else if r.cursor.name.None? {
        if cat(ev.sepId).isAsync {
          JoinGood(cat, s, id, ev, r.world, k);
        } else {
          QuietGood(cat, s, id, ev, r.world);
        }
      } else if r.world.cacheKey == "" || !Coalesces(cat, ev.sepId) {
        QuietGood(cat, s, id, ev, r.world);
      } else {
        OwnGood(cat, s, id, ev, r.world, k, o.now);
      }
    }
  }

  lemma EmitGood(cat: Catalog, s: Sys, id: string, sepId: string, o: Oracle)
    requires Good(cat, s) && id !in s.events
    ensures Good(cat, Emit(cat, s, id, sepId, o))
  {
    var site := SiteOf(cat, id, sepId);
    var w := Ctx(s.table, [], "", 0, []);
    FirstPassIs(o, site, None, Undefined, w);
    FirstPassEffect(cat, o, site, None, w);
    var r := FirstResult(cat, s, id, sepId, o);
    PassGood(cat, s, id, AfterFirst(sepId, r), o, w, r);
  }

  lemma ReenterGood(cat: Catalog, s: Sys, id: string, response: Json, o: Oracle)
    requires Good(cat, s) && id in s.events && IsAtAuth(s.events[id])
    ensures Good(cat, Resume(cat, s, id, response, o))
  {
    NamesDiffer();
    var ev := s.events[id];
    var site := SiteOf(cat, id, ev.sepId);
    var w := CtxOf(s, ev.inv.value);
    var cur := Some(ev.inv.value.cursor);
    FirstPassIs(o, site, cur, response, w);
    FirstPassEffect(cat, o, site, SavedCtx(cur), w);
    var r := ResumeResult(cat, s, id, response, o);
    PassGood(cat, s, id, AfterResume(ev, r), o, w, r);
    assert s.verdicts + [] == s.verdicts;
  }

  /** What an owner's callback comes to. */
  lemma CallbackIs(cat: Catalog, s: Sys, id: string, response: Json, o: Oracle)
    requires id in s.events && IsOwner(s.events[id])
    ensures var ev := s.events[id];
            var s' := Resume(cat, s, id, response, o);
            match o.post(response)
            case None => s' == Put(s, id, ev.(status := Failed, inv := None), CtxOf(s, ev.inv.value))
            case Some(d) => ResolvedBy(cat, s, s', id, d)
  {
    var ev := s.events[id];
    var w := CtxOf(s, ev.inv.value);
    CallbackPassIs(o, SiteOf(cat, id, ev.sepId), ev.inv.value.cursor, response, w);
    var r := ResumeResult(cat, s, id, response, o);
    assert s.verdicts + [] == s.verdicts;
    assert s.outbox + [] == s.outbox;
    if o.post(response).Some? {
      var (t, notes) := UpdateCacheSpec(s.table, OwnKey(ev), ev.inv.value.cacheTtl, Done(o.post(response).value), cat(ev.sepId));
      assert [] + notes == notes;
    }
  }

  /**
   * The callback of any waiting owner, cached or not: its response is the
   * postprocessed answer, which also replaces the reply in its row if the
   * endpoint caches; a failed postprocessing leaves both as they were.
   */
  lemma CallbackEnds(cat: Catalog, s: Sys, id: string, response: Json, o: Oracle)
    requires id in s.events && IsOwner(s.events[id])
    ensures var ev := s.events[id];
            var k := OwnKey(ev);
            var s' := Take(cat, s, DoCallback(id, response, o));
            && id in s'.events && s'.events == s.events[id := s'.events[id]]
            && s'.events[id].status.Failed? && s'.events[id].sepId == ev.sepId
            && s'.events[id].resp == (if o.post(response).Some? then o.post(response) else ev.resp)
            && s'.table ==
                 if && o.post(response).Some? && k in s.table && k.cacheKey != ""
                    && (cat(ev.sepId).isAsync || ev.inv.value.cacheTtl > 0)
                 then s.table[k := s.table[k].(response := Done(o.post(response).value))] else s.table
  {
    CallbackIs(cat, s, id, response, o);
  }

  lemma CallbackGood(cat: Catalog, s: Sys, id: string, response: Json, o: Oracle)
    requires Good(cat, s) && id in s.events && IsOwner(s.events[id])
    ensures Good(cat, Resume(cat, s, id, response, o))
  {
    CallbackIs(cat, s, id, response, o);
    var ev := s.events[id];
    var s' := Resume(cat, s, id, response, o);
    match o.post(response) {
      case None =>
        EndGood(cat, s, id, ev.(status := Failed, inv := None), CtxOf(s, ev.inv.value));
      case Some(d) => ResolveGood(cat, s, s', id, d);
    }
  }

  /** What the delivery of a resume comes to. */
  lemma DeliverIs(cat: Catalog, s: Sys, i: nat, o: Oracle)
    requires GoodKeys(s) && i < |s.outbox|
    ensures IdOf(s.outbox[i].invokeKey) in s.events
    ensures DeliveredBy(s, Deliver(cat, s, i, o), i, IdOf(s.outbox[i].invokeKey))
  {
    var note := s.outbox[i];
    assert GoodKey(s, note.invokeKey);
    var id := IdOf(note.invokeKey);
    InvokeKeys.DirectKey(id);
    var ev := s.events[id];
    if ev.status.Waiting? {
      var s1 := s.(outbox := Remove(s.outbox, i));
      var cur := ev.inv.value.cursor;
      EndedPassIs(o, SiteOf(cat, id, ev.sepId), cur, note.data, CtxOf(s1, ev.inv.value));
      assert Judge(cat, s1, id, ResumeResult(cat, s1, id, note.data, o)) == [];
      assert s.verdicts + [] == s.verdicts;
      assert s1.outbox + [] == s1.outbox;
    }
  }

  lemma TakeGood(cat: Catalog, s: Sys, step: Step)
    requires Good(cat, s)
    ensures Good(cat, Take(cat, s, step))
  {
    match step {
      case DoEmit(id, sepId, o) =>
        if id !in s.events {
          EmitGood(cat, s, id, sepId, o);
        }
      case DoCallback(id, response, o) =>
        if MayCallBack(s, id) {
          if IsAtAuth(s.events[id]) {
            ReenterGood(cat, s, id, response, o);
          } else {
            CallbackGood(cat, s, id, response, o);
          }
        }
      case DoDeliver(i, o) =>
        if i < |s.outbox| {
          DeliverIs(cat, s, i, o);
          DeliverGood(cat, s, Deliver(cat, s, i, o), i, IdOf(s.outbox[i].invokeKey));
        }
    }
  }

  lemma {:induction false} RunGood(cat: Catalog, s: Sys, steps: seq<Step>)
    requires Good(cat, s)
    ensures Good(cat, TakeAll(cat, s, steps))
    decreases |steps|
  {
    if steps != [] {
      TakeGood(cat, s, steps[0]);
      RunGood(cat, Take(cat, s, steps[0]), steps[1..]);
    }
  }

  ghost predicate Reachable(cat: Catalog, s: Sys) {
    exists steps :: s == TakeAll(cat, Initial, steps)
  }

  lemma ReachableGood(cat: Catalog, s: Sys)
    requires Reachable(cat, s)
    ensures Good(cat, s)
  {
    var steps :| s == TakeAll(cat, Initial, steps);
    RunGood(cat, Initial, steps);
  }

  // ------------------------------------------------------------ main properties

  ghost predicate ExactlyOnce(keys: seq<string>, ik: string) {
    exists i :: 0 <= i < |keys| && keys[i] == ik && forall j :: 0 <= j < |keys| && keys[j] == ik ==> j == i
  }

  ghost predicate ExactlyOneNote(q: seq<Note>, ik: string) {
    exists i :: 0 <= i < |q| && q[i].invokeKey == ik && forall j :: 0 <= j < |q| && q[j].invokeKey == ik ==> j == i
  }

  /** Two resumes of the same coalesced event are one. */
  lemma SameNote(cat: Catalog, s: Sys, i: nat, j: nat)
    requires SingleNotes(cat, s) && i < |s.outbox| && j < |s.outbox|
    requires OfCoalescing(cat, s, s.outbox[i].invokeKey)
    ensures s.outbox[i].invokeKey == s.outbox[j].invokeKey <==> i == j
  {}

  lemma NotifiedOnce(cat: Catalog, s: Sys, id: string)
    requires SingleNotes(cat, s) && id in s.events && Coalesces(cat, s.events[id].sepId) && Notified(s, id)
    ensures ExactlyOneNote(s.outbox, KeyFor(id))
  {
    KeysDiffer(id);
    var i :| 0 <= i < |s.outbox| && s.outbox[i].invokeKey == KeyFor(id);
    forall j | 0 <= j < |s.outbox| && s.outbox[j].invokeKey == KeyFor(id)
      ensures j == i
    {
      SameNote(cat, s, i, j);
    }
  }

  lemma RegisteredOnce(cat: Catalog, s: Sys, id: string)
    requires Registers(cat, s) && id in s.events && s.events[id].inv.Some? && Coalesces(cat, s.events[id].sepId)
    requires Registered(s, id)
    ensures ExactlyOnce(s.table[OwnKey(s.events[id])].invokeKeys, KeyFor(id)) && !Notified(s, id)
  {
    var keys := s.table[OwnKey(s.events[id])].invokeKeys;
    var i :| 0 <= i < |keys| && keys[i] == KeyFor(id);
    assert NoDup(keys);
  }

  /**
   * Single flight.  In every reachable state, an invocation of a coalescing
   * endpoint that is suspended past its cache lookup either owns the one pending
   * row of its key, or is listed exactly once in that row with no resume on its
   * way, or has exactly one resume on its way and is in no pending row.
   */
  lemma SingleFlight(cat: Catalog, s: Sys, id: string)
    requires Reachable(cat, s)
    requires id in s.events && s.events[id].status.Waiting? && !IsAtAuth(s.events[id])
    requires Coalesces(cat, s.events[id].sepId)
    ensures s.events[id].inv.Some?
    ensures var k := OwnKey(s.events[id]);
            if IsOwner(s.events[id]) then
              k.cacheKey != "" ==> PendingAt(s.table, k) && s.table[k].sourceId == id
            else
              && IsObserver(s.events[id])
              && if PendingAt(s.table, k) && KeyFor(id) in s.table[k].invokeKeys
                 then ExactlyOnce(s.table[k].invokeKeys, KeyFor(id)) && !Notified(s, id)
                 else ExactlyOneNote(s.outbox, KeyFor(id))
  {
    ReachableGood(cat, s);
    if IsObserver(s.events[id]) {
      assert Registered(s, id) || Notified(s, id);
      if Registered(s, id) {
        RegisteredOnce(cat, s, id);
      } else {
        NotifiedOnce(cat, s, id);
      }
    }
  }

  /** Two invocations never own the same key of a coalescing endpoint at the same time. */
  lemma OneOwner(cat: Catalog, s: Sys, a: string, b: string)
    requires Reachable(cat, s) && a in s.events && b in s.events
    requires IsOwner(s.events[a]) && IsOwner(s.events[b])
    requires OwnKey(s.events[a]) == OwnKey(s.events[b]) && OwnKey(s.events[a]).cacheKey != ""
    requires Coalesces(cat, s.events[a].sepId)
    ensures a == b
  {
    SingleFlight(cat, s, a);
    SingleFlight(cat, s, b);
  }

  /** An event that no longer waits never changes again. */
  lemma {:induction false} EndedIsFinal(cat: Catalog, s: Sys, steps: seq<Step>, id: string)
    requires id in s.events && !s.events[id].status.Waiting?
    ensures id in TakeAll(cat, s, steps).events && TakeAll(cat, s, steps).events[id] == s.events[id]
    decreases |steps|
  {
    if steps != [] {
      EndedIsFinal(cat, Take(cat, s, steps[0]), steps[1..], id);
    }
  }

  /** A pass from an entering event keeps every pending row, with its owner, and can only add a key. */
  lemma PassKeepsPending(cat: Catalog, o: Oracle, site: Site, w: Ctx, r: Result, k: Key)
    requires PassEffect(cat, o, site, w, r)
    requires Coalesces(cat, k.sepId) && PendingAt(w.table, k)
    ensures var t := r.world.table;
            PendingAt(t, k) && t[k].sourceId == w.table[k].sourceId && w.table[k].invokeKeys <= t[k].invokeKeys
    ensures r.world.resumed == []
  {
    NamesDiffer();
  }

  /** The step is the callback that resolves the row: its owner's, and its postprocessing succeeds. */
  ghost predicate Resolves(s: Sys, step: Step, k: Key)
    requires k in s.table
  {
    step.DoCallback? && step.id == s.table[k].sourceId && MayCallBack(s, step.id) && step.o.post(step.response).Some?
  }

  lemma StepResult(cat: Catalog, s: Sys, step: Step, k: Key)
    requires Good(cat, s) && Coalesces(cat, k.sepId) && PendingAt(s.table, k)
    ensures var s' := Take(cat, s, step);
            if Resolves(s, step, k) then
              && s.events[step.id].status.Waiting?
              && ResolvedBy(cat, s, s', step.id, step.o.post(step.response).value)
              && Resolvable(cat, s, s.events[step.id]) == Some(k)
              && k in s'.table && s'.table[k] == s.table[k].(response := Done(step.o.post(step.response).value))
            else
              PendingAt(s'.table, k) && s'.table[k].sourceId == s.table[k].sourceId
              && s.table[k].invokeKeys <= s'.table[k].invokeKeys
  {
    NamesDiffer();
    match step {
      case DoEmit(id, sepId, o) =>
        var site := SiteOf(cat, id, sepId);
        var w := Ctx(s.table, [], "", 0, []);
        FirstPassIs(o, site, None, Undefined, w);
        FirstPassEffect(cat, o, site, None, w);
        PassKeepsPending(cat, o, site, w, FirstResult(cat, s, id, sepId, o), k);
      case DoCallback(id, response, o) =>
        if MayCallBack(s, id) {
          var ev := s.events[id];
          if IsAtAuth(ev) {
            var site := SiteOf(cat, id, ev.sepId);
            var w := CtxOf(s, ev.inv.value);
            var cur := Some(ev.inv.value.cursor);
            FirstPassIs(o, site, cur, response, w);
            FirstPassEffect(cat, o, site, SavedCtx(cur), w);
            PassKeepsPending(cat, o, site, w, ResumeResult(cat, s, id, response, o), k);
          } else {
            CallbackIs(cat, s, id, response, o);
          }
        }
      case DoDeliver(i, o) =>
        if i < |s.outbox| {
          DeliverIs(cat, s, i, o);
        }
    }
  }

  /**
   * A pending row is never dropped: each step either keeps it, with its owner and
   * all its observers, or is its owner's successful callback.  That one records
   * the same data in the row, in the owner's event and in one triggered resume
   * per listed observer, in the order they came.
   */
  lemma PendingUntilResolved(cat: Catalog, s: Sys, step: Step, k: Key)
    requires Reachable(cat, s) && Coalesces(cat, k.sepId) && PendingAt(s.table, k)
    ensures var s' := Take(cat, s, step);
            if Resolves(s, step, k) then
              var d := step.o.post(step.response).value;
              && k in s'.table && s'.table[k] == s.table[k].(response := Done(d))
              && Settled(s', s.table[k].sourceId, d)
              && s'.outbox == s.outbox + Notes(s.table[k].invokeKeys, d)
            else
              PendingAt(s'.table, k) && s'.table[k].sourceId == s.table[k].sourceId
              && s.table[k].invokeKeys <= s'.table[k].invokeKeys
  {
    ReachableGood(cat, s);
    StepResult(cat, s, step, k);
    ResumesAll(cat, s, k);
  }

  /**
   * Coalesced callers agree.  In every reachable state, for every resolution so
   * far of a coalescing row: its owner ended with the data, and each observer
   * ended with the same data or has it on its way; once no resume is on its way,
   * all of them have it.
   */
  lemma CallersAgree(cat: Catalog, s: Sys, v: Verdict)
    requires Reachable(cat, s) && v in s.verdicts && Coalesces(cat, v.k.sepId)
    ensures Upheld(s, v)
    ensures s.outbox == [] ==> Settled(s, v.owner, v.data) && forall ik :: ik in v.observers ==> Settled(s, IdOf(ik), v.data)
  {
    ReachableGood(cat, s);
    assert forall ik :: ik in v.observers ==> Served(s, v, ik);
  }

  /** An observer is resumed once: the delivery finds it waiting, settles it, and no other is on its way. */
  lemma ResumedOnce(cat: Catalog, s: Sys, i: nat, o: Oracle, steps: seq<Step>)
    requires Reachable(cat, s) && i < |s.outbox|
    requires OfCoalescing(cat, s, s.outbox[i].invokeKey)
    requires var id := IdOf(s.outbox[i].invokeKey); s.events[id].status.Waiting?
    ensures var id := IdOf(s.outbox[i].invokeKey);
            var s' := Take(cat, s, DoDeliver(i, o));
            && Settled(s', id, s.outbox[i].data) && !Notified(s', id)
            && TakeAll(cat, s', steps).events.Keys >= {id} && TakeAll(cat, s', steps).events[id] == s'.events[id]
  {
    ReachableGood(cat, s);
    DeliverIs(cat, s, i, o);
    var id := IdOf(s.outbox[i].invokeKey);
    var s' := Deliver(cat, s, i, o);
    EndedIsFinal(cat, s', steps, id);
    RemoveAt(s.outbox, i);
    assert GoodKey(s, s.outbox[i].invokeKey);
    forall j | 0 <= j < |s'.outbox|
      ensures s'.outbox[j].invokeKey != KeyFor(id)
    {
      SameNote(cat, s, i, if j < i then j else j + 1);
    }
  }

  /** Deliver every resume on its way, in any order. */
  ghost predicate DeliversAll(s: Sys, steps: seq<Step>) {
    |steps| == |s.outbox| && forall j :: 0 <= j < |steps| ==> steps[j].DoDeliver? && steps[j].i < |s.outbox| - j
  }

  lemma {:induction false} DeliveriesDrain(cat: Catalog, s: Sys, steps: seq<Step>)
    requires Good(cat, s) && DeliversAll(s, steps)
    ensures var s' := TakeAll(cat, s, steps);
            Good(cat, s') && s'.outbox == [] && s'.verdicts == s.verdicts && s'.table == s.table
    decreases |steps|
  {
    if steps != [] {
      DeliverIs(cat, s, steps[0].i, steps[0].o);
      TakeGood(cat, s, steps[0]);
      RemoveAt(s.outbox, steps[0].i);
      DeliveriesDrain(cat, Take(cat, s, steps[0]), steps[1..]);
    }
  }

  /**
   * Nobody is left waiting.  When the owner's callback succeeds and the resumes
   * then on their way are delivered, in whatever order: the owner and every
   * observer that was waiting have the same data, and no event waits for the row.
   */
  lemma NobodyLeftWaiting(cat: Catalog, s: Sys, step: Step, k: Key, deliveries: seq<Step>)
    requires Reachable(cat, s) && Coalesces(cat, k.sepId) && PendingAt(s.table, k) && Resolves(s, step, k)
    requires DeliversAll(Take(cat, s, step), deliveries)
    ensures var s2 := TakeAll(cat, Take(cat, s, step), deliveries);
            var d := step.o.post(step.response).value;
            && s2.outbox == [] && Settled(s2, s.table[k].sourceId, d)
            && (forall ik :: ik in Waiters(s, s.table[k].invokeKeys) ==> Settled(s2, IdOf(ik), d))
            && (forall x :: x in s2.events && IsObserver(s2.events[x]) ==> OwnKey(s2.events[x]) != k)
  {
    ReachableGood(cat, s);
    StepResult(cat, s, step, k);
    TakeGood(cat, s, step);
    var s1 := Take(cat, s, step);
    DeliveriesDrain(cat, s1, deliveries);
    var s2 := TakeAll(cat, s1, deliveries);
    var v := s1.verdicts[|s.verdicts|];
    assert v in s2.verdicts && Upheld(s2, v);
    forall ik | ik in Waiters(s, s.table[k].invokeKeys)
      ensures Settled(s2, IdOf(ik), v.data)
    {
      assert Served(s2, v, ik);
    }
    forall x | x in s2.events && IsObserver(s2.events[x])
      ensures OwnKey(s2.events[x]) != k
    {
      assert Coalesces(cat, s2.events[x].sepId) ==> Registered(s2, x) || Notified(s2, x);
    }
  }

  // ------------------------------------------------------------- orphaned rows

  /** No callback can resolve the row: its owner's event no longer waits. */
  predicate Orphaned(s: Sys, k: Key) {
    && PendingAt(s.table, k) && s.table[k].sourceId in s.events
    && !s.events[s.table[k].sourceId].status.Waiting?
  }

  lemma OrphanStep(cat: Catalog, s: Sys, k: Key, step: Step)
    requires Good(cat, s) && Coalesces(cat, k.sepId) && Orphaned(s, k)
    ensures var s' := Take(cat, s, step);
            Orphaned(s', k) && s.table[k].invokeKeys <= s'.table[k].invokeKeys
  {
    StepResult(cat, s, step, k);
    EndedIsFinal(cat, s, [step], s.table[k].sourceId);
    assert [step][1..] == [];
    assert TakeAll(cat, s, [step]) == TakeAll(cat, Take(cat, s, step), []);
  }

  lemma {:induction false} OrphanStays(cat: Catalog, s: Sys, k: Key, steps: seq<Step>)
    requires Good(cat, s) && Coalesces(cat, k.sepId) && Orphaned(s, k)
    ensures Orphaned(TakeAll(cat, s, steps), k)
    decreases |steps|
  {
    if steps != [] {
      OrphanStep(cat, s, k, steps[0]);
      TakeGood(cat, s, steps[0]);
      OrphanStays(cat, Take(cat, s, steps[0]), k, steps[1..]);
    }
  }

  lemma CallbackResolves(cat: Catalog, s: Sys, k: Key, step: Step)
    requires Good(cat, s) && Coalesces(cat, k.sepId) && PendingAt(s.table, k)
    requires Resolves(s, step, k)
    ensures !PendingAt(TakeAll(cat, s, [step]).table, k)
  {
    StepResult(cat, s, step, k);
    assert [step][1..] == [];
    assert TakeAll(cat, s, [step]) == TakeAll(cat, Take(cat, s, step), []);
  }

  /**
   * A pending row can still be resolved exactly when its owner's event waits.
   * Otherwise it stays pending in every continuation.
   */
  lemma ResolvableIff(cat: Catalog, s: Sys, k: Key)
    requires Reachable(cat, s) && Coalesces(cat, k.sepId) && PendingAt(s.table, k)
    ensures s.table[k].sourceId in s.events
    ensures s.events[s.table[k].sourceId].status.Waiting?
       <==> exists steps :: !PendingAt(TakeAll(cat, s, steps).table, k)
  {
    ReachableGood(cat, s);
    var id := s.table[k].sourceId;
    if s.events[id].status.Waiting? {
      var step := DoCallback(id, Undefined, Oracle(None, f => Rejected, None, raw => Some(raw), 0));
      CallbackResolves(cat, s, k, step);
      assert !PendingAt(TakeAll(cat, s, [step]).table, k);
    } else {
      forall steps
        ensures PendingAt(TakeAll(cat, s, steps).table, k)
      {
        OrphanStays(cat, s, k, steps);
      }
    }
  }

  /** The observers of an orphaned row wait in every continuation. */
  lemma ObserversOfOrphanWait(cat: Catalog, s: Sys, id: string, steps: seq<Step>)
    requires Reachable(cat, s) && id in s.events && IsObserver(s.events[id])
    requires Coalesces(cat, s.events[id].sepId)
    requires Orphaned(s, OwnKey(s.events[id])) && !Notified(s, id)
    ensures id in TakeAll(cat, s, steps).events && TakeAll(cat, s, steps).events[id] == s.events[id]
  {
    ReachableGood(cat, s);
    assert Registered(s, id);
    OrphanObserverStays(cat, s, id, steps);
  }

  lemma {:induction false} OrphanObserverStays(cat: Catalog, s: Sys, id: string, steps: seq<Step>)
    requires Good(cat, s) && id in s.events && IsObserver(s.events[id])
    requires Coalesces(cat, s.events[id].sepId) && Orphaned(s, OwnKey(s.events[id])) && Registered(s, id)
    ensures id in TakeAll(cat, s, steps).events && TakeAll(cat, s, steps).events[id] == s.events[id]
    decreases |steps|
  {
    if steps != [] {
      OrphanObserverStep(cat, s, id, steps[0]);
      TakeGood(cat, s, steps[0]);
      OrphanObserverStays(cat, Take(cat, s, steps[0]), id, steps[1..]);
    }
  }

  lemma OrphanObserverStep(cat: Catalog, s: Sys, id: string, step: Step)
    requires Good(cat, s) && id in s.events && IsObserver(s.events[id])
    requires Coalesces(cat, s.events[id].sepId) && Orphaned(s, OwnKey(s.events[id])) && Registered(s, id)
    ensures var s' := Take(cat, s, step);
            && id in s'.events && s'.events[id] == s.events[id]
            && Orphaned(s', OwnKey(s.events[id])) && Registered(s', id)
  {
    var k := OwnKey(s.events[id]);
    OrphanStep(cat, s, k, step);
    OtherEventsStay(cat, s, step, id);
    var keys := s.table[k].invokeKeys;
    var j :| 0 <= j < |keys| && keys[j] == KeyFor(id);
    assert Take(cat, s, step).table[k].invokeKeys[j] == KeyFor(id);
  }

  /** A registered observer changes only by a delivery, and none is on its way. */
  lemma OtherEventsStay(cat: Catalog, s: Sys, step: Step, id: string)
    requires Good(cat, s) && id in s.events && IsObserver(s.events[id])
    requires Coalesces(cat, s.events[id].sepId) && Registered(s, id)
    ensures id in Take(cat, s, step).events && Take(cat, s, step).events[id] == s.events[id]
  {
    RegisteredOnce(cat, s, id);
    if step.DoDeliver? && step.i < |s.outbox| {
      DeliverIs(cat, s, step.i, step.o);
      assert GoodKey(s, s.outbox[step.i].invokeKey);
      assert !(s.outbox[step.i].invokeKey == KeyFor(id));
    }
  }

  /**
   * When a row is born an orphan: exactly when the step that creates it is a
   * re-entry after an auth suspension.  The resumed invocation may not be pending
   * again, so its event fails although the endpoint has accepted the request.
   */
  lemma BornOrphanIff(cat: Catalog, s: Sys, step: Step, k: Key)
    requires Reachable(cat, s) && Coalesces(cat, k.sepId)
    requires !PendingAt(s.table, k) && PendingAt(Take(cat, s, step).table, k)
    ensures Orphaned(Take(cat, s, step), k) <==> step.DoCallback?
  {
    ReachableGood(cat, s);
    TakeGood(cat, s, step);
    match step {
      case DoEmit(id, sepId, o) =>
        var site := SiteOf(cat, id, sepId);
        var w := Ctx(s.table, [], "", 0, []);
        FirstPassIs(o, site, None, Undefined, w);
        FirstPassEffect(cat, o, site, None, w);
        NamesDiffer();
      case DoCallback(id, response, o) =>
        var ev := s.events[id];
        if IsAtAuth(ev) {
          var site := SiteOf(cat, id, ev.sepId);
          var w := CtxOf(s, ev.inv.value);
          var cur := Some(ev.inv.value.cursor);
          FirstPassIs(o, site, cur, response, w);
          FirstPassEffect(cat, o, site, SavedCtx(cur), w);
          NamesDiffer();
        } else {
          CallbackIs(cat, s, id, response, o);
          assert false;
        }
      case DoDeliver(i, o) =>
        DeliverIs(cat, s, i, o);
        assert false;
    }
  }

  /** A live row becomes an orphan exactly when its owner's callback fails to postprocess. */
  lemma OrphanedByCallbackIff(cat: Catalog, s: Sys, id: string, response: Json, o: Oracle, k: Key)
    requires Reachable(cat, s) && Coalesces(cat, k.sepId) && PendingAt(s.table, k)
    requires s.table[k].sourceId == id && MayCallBack(s, id)
    ensures Orphaned(Take(cat, s, DoCallback(id, response, o)), k) <==> o.post(response).None?
  {
    ReachableGood(cat, s);
    StepResult(cat, s, DoCallback(id, response, o), k);
    CallbackIs(cat, s, id, response, o);
  }

  // ---------------------------------------------------- such rows are reachable

  /** Authentication suspends the first caller; the endpoint answers it with the pending marker on re-entry. */
  function SuspendsAtAuth(key: string): Oracle {
    Oracle(Some(key), f => Suspended("postAuth"), None, raw => None, 0)
  }

  function AnswersPending(key: string): Oracle {
    Oracle(Some(key), f => Passed, Some(Pending), raw => None, 0)
  }

  function Orphaning(sepId: string, key: string, a: string, b: string): seq<Step> {
    [ DoEmit(a, sepId, SuspendsAtAuth(key)),
      DoCallback(a, Undefined, AnswersPending(key)),
      DoEmit(b, sepId, AnswersPending(key)) ]
  }

  lemma FirstCallerSuspends(cat: Catalog, sepId: string, key: string, a: string)
    ensures Take(cat, Initial, DoEmit(a, sepId, SuspendsAtAuth(key))) ==
            Sys(map[],
                map[a := Event(sepId, Status.Waiting, Some(Inv(Cursor(Some(AUTH), Some("postAuth"), None), "", 0, [])), None)],
                [], [])
  {
    FirstPassIs(SuspendsAtAuth(key), SiteOf(cat, a, sepId), None, Undefined, Ctx(map[], [], "", 0, []));
    assert |"postAuth"| == 8;
  }

  /** The re-entry stores the pending row, then its event fails. */
  lemma ReentryOrphans(cat: Catalog, s: Sys, sepId: string, key: string, a: string)
    requires Coalesces(cat, sepId) && key != ""
    requires s == Take(cat, Initial, DoEmit(a, sepId, SuspendsAtAuth(key)))
    ensures var s' := Take(cat, s, DoCallback(a, Undefined, AnswersPending(key)));
            && s'.table == map[Key(sepId, key) := Row(Pending, a, [], 0)]
            && s'.events.Keys == {a} && !s'.events[a].status.Waiting? && s'.outbox == []
  {
    NamesDiffer();
    FirstCallerSuspends(cat, sepId, key, a);
    FirstPassIs(AnswersPending(key), SiteOf(cat, a, sepId), Some(s.events[a].inv.value.cursor), Undefined,
                CtxOf(s, s.events[a].inv.value));
  }

  /** A later caller of the key joins the row. */
  lemma LaterCallerJoins(cat: Catalog, s: Sys, sepId: string, key: string, a: string, b: string)
    requires Coalesces(cat, sepId) && key != "" && a != b
    requires s.table == map[Key(sepId, key) := Row(Pending, a, [], 0)] && b !in s.events && s.outbox == []
    ensures var s' := Take(cat, s, DoEmit(b, sepId, AnswersPending(key)));
            && s'.table == map[Key(sepId, key) := Row(Pending, a, [KeyFor(b)], 0)] && s'.outbox == []
            && b in s'.events && IsObserver(s'.events[b]) && s'.events[b].sepId == sepId
            && OwnKey(s'.events[b]) == Key(sepId, key)
            && s'.events == s.events[b := s'.events[b]]
  {
    FirstPassIs(AnswersPending(key), SiteOf(cat, b, sepId), None, Undefined, Ctx(s.table, [], "", 0, []));
    assert [] + [KeyFor(b)] == [KeyFor(b)];
  }

  lemma TakeThree(cat: Catalog, s: Sys, x: Step, y: Step, z: Step)
    ensures TakeAll(cat, s, [x, y, z]) == Take(cat, Take(cat, Take(cat, s, x), y), z)
  {
    var s1 := Take(cat, s, x);
    assert [x, y, z][1..] == [y, z] && [y, z][1..] == [z] && [z][1..] == [];
    assert TakeAll(cat, s1, [y, z]) == TakeAll(cat, Take(cat, s1, y), [z]);
  }

  lemma OrphaningRun(cat: Catalog, sepId: string, key: string, a: string, b: string)
    requires Coalesces(cat, sepId) && key != "" && a != b
    ensures var s := TakeAll(cat, Initial, Orphaning(sepId, key, a, b));
            && Orphaned(s, Key(sepId, key)) && s.outbox == []
            && b in s.events && IsObserver(s.events[b]) && s.events[b].sepId == sepId
            && OwnKey(s.events[b]) == Key(sepId, key)
  {
    var steps := Orphaning(sepId, key, a, b);
    TakeThree(cat, Initial, steps[0], steps[1], steps[2]);
    var s1 := Take(cat, Initial, steps[0]);
    var s2 := Take(cat, s1, steps[1]);
    ReentryOrphans(cat, s1, sepId, key, a);
    LaterCallerJoins(cat, s2, sepId, key, a, b);
  }

  /**
   * For every coalescing endpoint, every key and any two events there is a run
   * that orphans the key's row and leaves the second event waiting on it, in
   * every continuation.
   */
  lemma OrphansAreReachable(cat: Catalog, sepId: string, key: string, a: string, b: string)
    requires Coalesces(cat, sepId) && key != "" && a != b
    ensures var s := TakeAll(cat, Initial, Orphaning(sepId, key, a, b));
            && Orphaned(s, Key(sepId, key))
            && b in s.events && IsObserver(s.events[b]) && OwnKey(s.events[b]) == Key(sepId, key)
            && forall more :: b in TakeAll(cat, s, more).events && TakeAll(cat, s, more).events[b] == s.events[b]
  {
    OrphaningRun(cat, sepId, key, a, b);
    var s := TakeAll(cat, Initial, Orphaning(sepId, key, a, b));
    forall more
      ensures b in TakeAll(cat, s, more).events && TakeAll(cat, s, more).events[b] == s.events[b]
    {
      ObserversOfOrphanWait(cat, s, b, more);
    }
  }

  /** A resumed direct invocation records its response, but its event always ends as failed. */
  lemma ResumedEventFails(cat: Catalog, s: Sys, id: string, response: Json, o: Oracle)
    requires CanResume(s, id)
    ensures var s' := Resume(cat, s, id, response, o);
            id in s'.events && s'.events[id].status.Failed?
  {}

  /**
   * A callback that is accepted is an event's last: in every continuation the
   * event has failed.  So authentication, which the chain would let suspend an
   * invocation again and again, suspends it at most once.
   */
  lemma AuthSuspendsOnce(cat: Catalog, s: Sys, id: string, response: Json, o: Oracle, more: seq<Step>)
    requires MayCallBack(s, id)
    ensures var s' := TakeAll(cat, Take(cat, s, DoCallback(id, response, o)), more);
            id in s'.events && s'.events[id].status.Failed?
  {
    ResumedEventFails(cat, s, id, response, o);
    EndedIsFinal(cat, Take(cat, s, DoCallback(id, response, o)), more, id);
  }
}
