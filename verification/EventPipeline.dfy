/**
 * The persisted event pipeline: an event is passed to its listeners in order, a
 * listener may suspend it, and a later resume continues where it stopped
 * (src/event-listeners/event-listeners.service.ts, upsertEvent of
 * src/event-stores/event-stores.service.ts).
 *
 * Listeners are arbitrary: a call is any function of the listener, the function
 * name and the event.  `B` is what the event carries (its context), `C` what an
 * external callback brings.
 */
module EventPipeline {
  import opened Common
  import opened ListenerOrder
  import InvokeKeys

  /** Status 0 is done, 1 processing, 2 pending; everything else is an error. */
  datatype Event<B> = Event(id: string, route: Route, body: B, stop: bool, status: int)

  /** What a listener's function did: the event afterwards, and the function to resume with, if any. */
  datatype Returned<B> = Ok(event: Event<B>, resumeFunName: string) | Threw(event: Event<B>, httpStatus: int)

  /** The stored row: the event and its continuation. */
  datatype Stored<B> = Stored(event: Event<B>, funName: Option<string>, listenerId: Option<string>)

  type Listening<!B> = (string, string, Event<B>) -> Returned<B>

  /** The listener and the function called on it. */
  type Calls = seq<(string, string)>

  function FunOf(l: Listener, funName: string): string {
    if funName != "" then funName else l.funName
  }

  /** A callgent listener hands the event back untouched. */
  function Invoke<B>(call: Listening<B>, l: Listener, funName: string, ev: Event<B>): Returned<B> {
    if l.callgent then Ok(ev, "") else call(l.id, FunOf(l, funName), ev)
  }

  /** An exception without a status counts as -1. */
  function ErrorStatus(httpStatus: int): int {
    if httpStatus == 0 then -1 else httpStatus
  }

  datatype Looped<B> = Looped(event: Event<B>, funName: string, idx: nat, calls: Calls)

  /** What one listener's turn leaves: the event with its status, the function name, and whether the loop ends. */
  datatype Turn<B> = Turn(event: Event<B>, funName: string, halts: bool)

  function TurnOf<B>(call: Listening<B>, l: Listener, isLast: bool, ev: Event<B>, funName: string): Turn<B> {
    match Invoke(call, l, funName, ev)
    case Threw(e, h) => Turn(e.(status := ErrorStatus(h)), funName, true)
    case Ok(e, f) =>
      if f != "" then Turn(e.(status := 2), f, true)
      else if e.stop || isLast then Turn(e.(status := 0), "", true)
      else Turn(e.(status := 1), "", false)
  }

  /** The listener loop from position `idx` on. */
  function Loop<B>(call: Listening<B>, ls: seq<Listener>, idx: nat, ev: Event<B>, funName: string): Looped<B>
    decreases |ls| - idx
  {
    if idx >= |ls| || ev.stop then Looped(ev, funName, idx, [])
    else
      var c := (ls[idx].id, FunOf(ls[idx], funName));
      var t := TurnOf(call, ls[idx], idx + 1 >= |ls|, ev, funName);
      if t.halts then Looped(t.event, t.funName, idx + 1, [c])
      else After([c], Loop(call, ls, idx + 1, t.event, ""))
  }

  /** A run with these calls made before it. */
  function After<B>(made: Calls, l: Looped<B>): Looped<B> {
    l.(calls := made + l.calls)
  }

  lemma AfterTwice<B>(made: Calls, c: (string, string), l: Looped<B>)
    ensures After(made, After([c], l)) == After(made + [c], l)
  {
    assert made + ([c] + l.calls) == made + [c] + l.calls;
  }

  /** One unfolding of the loop; past the end there is nothing left to do. */
  lemma LoopTurn<B>(call: Listening<B>, ls: seq<Listener>, idx: nat, ev: Event<B>, funName: string)
    requires idx < |ls| && !ev.stop
    ensures var c := (ls[idx].id, FunOf(ls[idx], funName));
            var t := TurnOf(call, ls[idx], idx + 1 >= |ls|, ev, funName);
            Loop(call, ls, idx, ev, funName) == if t.halts && (t.funName != "" || t.event.stop || t.event.status != 0)
                                                then Looped(t.event, t.funName, idx + 1, [c])
                                                else After([c], Loop(call, ls, idx + 1, t.event, t.funName))
  {}

  /** One call of a run: the event handed to the listener, the function named to it, what it returned. */
  datatype Visit<B> = Visit(given: Event<B>, fun: string, result: Returned<B>)

  /** The visit calls this listener; a callgent listener hands the event back untouched. */
  ghost predicate Visits<B>(call: Listening<B>, v: Visit<B>, l: Listener) {
    v.result == if l.callgent then Ok(v.given, "") else call(l.id, v.fun, v.given)
  }

  /** It goes well, asks for nothing and does not stop the event, which the next visit gets as processing. */
  ghost predicate HandsOn<B>(v: Visit<B>, next: Visit<B>) {
    && v.result.Ok? && v.result.resumeFunName == "" && !v.result.event.stop
    && next.given == v.result.event.(status := 1)
  }

  /** The last visit throws, suspends the event, stops it, or is at the end of the list. */
  ghost predicate Ends<B>(v: Visit<B>, atEnd: bool, event: Event<B>) {
    match v.result
    case Threw(e, h) => event == e.(status := if h == 0 then -1 else h)
    case Ok(e, f) => if f != "" then event == e.(status := 2) else event == e.(status := 0) && (e.stop || atEnd)
  }

  /**
   * What a run over the listeners from `i` on is, without reference to its loop:
   * one visit per listener, in order, only the first on the function resumed; all
   * but the last hand the event on, and the last gives the event its status.
   */
  ghost predicate IsRun<B>(call: Listening<B>, ls: seq<Listener>, i: nat, ev: Event<B>, funName: string,
                           vs: seq<Visit<B>>, event: Event<B>) {
    var n := |vs|;
    && (n == 0 ==> (i >= |ls| || ev.stop) && event == ev)
    && (n > 0 ==> i + n <= |ls| && vs[0].given == ev && !ev.stop && Ends(vs[n - 1], i + n == |ls|, event))
    && (forall k :: 0 <= k < n ==> Visits(call, vs[k], ls[i + k]))
    && (forall k :: 0 <= k < n ==> vs[k].fun == if k == 0 && funName != "" then funName else ls[i + k].funName)
    && (forall k :: 0 <= k < n - 1 ==> HandsOn(vs[k], vs[k + 1]))
  }

  /** The calls that the visits of the listeners from `i` on are. */
  ghost predicate AreCalls<B>(ls: seq<Listener>, i: nat, vs: seq<Visit<B>>, calls: Calls) {
    |calls| == |vs| && i + |vs| <= |ls| && forall k :: 0 <= k < |vs| ==> calls[k] == (ls[i + k].id, vs[k].fun)
  }

  /** The visits behind a loop. */
  ghost function VisitsOf<B>(call: Listening<B>, ls: seq<Listener>, i: nat, ev: Event<B>, funName: string): seq<Visit<B>>
    decreases |ls| - i
  {
    if i >= |ls| || ev.stop then []
    else
      var v := Visit(ev, FunOf(ls[i], funName), Invoke(call, ls[i], funName, ev));
      var t := TurnOf(call, ls[i], i + 1 >= |ls|, ev, funName);
      if t.halts then [v] else [v] + VisitsOf(call, ls, i + 1, t.event, "")
  }

  /** A visit that hands the event on, before a run over the rest. */
  lemma PrependVisit<B>(call: Listening<B>, ls: seq<Listener>, i: nat, v: Visit<B>, funName: string,
                        vs: seq<Visit<B>>, event: Event<B>)
    requires i + 1 < |ls| && !v.given.stop && vs != []
    requires Visits(call, v, ls[i]) && v.fun == (if funName != "" then funName else ls[i].funName)
    requires HandsOn(v, vs[0]) && IsRun(call, ls, i + 1, vs[0].given, "", vs, event)
    ensures IsRun(call, ls, i, v.given, funName, [v] + vs, event)
  {
    var all := [v] + vs;
    assert forall k :: 0 < k < |all| ==> all[k] == vs[k - 1] && i + k == i + 1 + (k - 1);
    forall k | 0 <= k < |all|
      ensures Visits(call, all[k], ls[i + k])
    {
      assert k > 0 ==> Visits(call, vs[k - 1], ls[i + 1 + (k - 1)]);
    }
    forall k | 0 <= k < |all| - 1
      ensures HandsOn(all[k], all[k + 1])
    {
      assert k > 0 ==> HandsOn(vs[k - 1], vs[k - 1 + 1]);
    }
  }

  lemma {:induction false} LoopIsRun<B>(call: Listening<B>, ls: seq<Listener>, i: nat, ev: Event<B>, funName: string)
    ensures IsRun(call, ls, i, ev, funName, VisitsOf(call, ls, i, ev, funName), Loop(call, ls, i, ev, funName).event)
    decreases |ls| - i
  {
    if i < |ls| && !ev.stop {
      var t := TurnOf(call, ls[i], i + 1 >= |ls|, ev, funName);
      if !t.halts {
        var v := Visit(ev, FunOf(ls[i], funName), Invoke(call, ls[i], funName, ev));
        LoopIsRun(call, ls, i + 1, t.event, "");
        PrependVisit(call, ls, i, v, funName, VisitsOf(call, ls, i + 1, t.event, ""), Loop(call, ls, i + 1, t.event, "").event);
      }
    }
  }

  lemma {:induction false} LoopCalls<B>(call: Listening<B>, ls: seq<Listener>, i: nat, ev: Event<B>, funName: string)
    requires i <= |ls|
    ensures AreCalls(ls, i, VisitsOf(call, ls, i, ev, funName), Loop(call, ls, i, ev, funName).calls)
    decreases |ls| - i
  {
    if i < |ls| && !ev.stop {
      var t := TurnOf(call, ls[i], i + 1 >= |ls|, ev, funName);
      if !t.halts {
        LoopCalls(call, ls, i + 1, t.event, "");
      }
    }
  }

  /** The loop makes a run, and only one event and one list of calls are those of a run. */
  lemma LoopIsTheRun<B>(call: Listening<B>, ls: seq<Listener>, ev: Event<B>, funName: string)
    ensures exists vs :: IsRun(call, ls, 0, ev, funName, vs, Loop(call, ls, 0, ev, funName).event)
                         && AreCalls(ls, 0, vs, Loop(call, ls, 0, ev, funName).calls)
    ensures forall vs, event, calls :: IsRun(call, ls, 0, ev, funName, vs, event) && AreCalls(ls, 0, vs, calls) ==>
              event == Loop(call, ls, 0, ev, funName).event && calls == Loop(call, ls, 0, ev, funName).calls
  {
    LoopIsRun(call, ls, 0, ev, funName);
    LoopCalls(call, ls, 0, ev, funName);
    var ws := VisitsOf(call, ls, 0, ev, funName);
    forall vs, event, calls | IsRun(call, ls, 0, ev, funName, vs, event) && AreCalls(ls, 0, vs, calls)
      ensures event == Loop(call, ls, 0, ev, funName).event && calls == Loop(call, ls, 0, ev, funName).calls
    {
      OneRun(call, ls, ev, funName, vs, event, ws, Loop(call, ls, 0, ev, funName).event);
    }
  }

  lemma {:induction false} SameVisit<B>(call: Listening<B>, ls: seq<Listener>, ev: Event<B>, funName: string,
                                        vs: seq<Visit<B>>, event: Event<B>, ws: seq<Visit<B>>, event': Event<B>, k: nat)
    requires IsRun(call, ls, 0, ev, funName, vs, event) && IsRun(call, ls, 0, ev, funName, ws, event')
    requires k < |vs| && k < |ws|
    ensures vs[k] == ws[k]
  {
    if k > 0 {
      SameVisit(call, ls, ev, funName, vs, event, ws, event', k - 1);
      assert HandsOn(vs[k - 1], vs[k - 1 + 1]) && HandsOn(ws[k - 1], ws[k - 1 + 1]);
    }
    assert Visits(call, vs[k], ls[0 + k]) && Visits(call, ws[k], ls[0 + k]);
  }

  /** A run that goes on after a visit that ended the other one cannot be. */
  lemma NoLongerRun<B>(call: Listening<B>, ls: seq<Listener>, ev: Event<B>, funName: string,
                       vs: seq<Visit<B>>, event: Event<B>, ws: seq<Visit<B>>, event': Event<B>)
    requires IsRun(call, ls, 0, ev, funName, vs, event) && IsRun(call, ls, 0, ev, funName, ws, event')
    ensures |vs| >= |ws|
  {
    if |vs| < |ws| && |vs| > 0 {
      var k := |vs| - 1;
      assert HandsOn(ws[k], ws[k + 1]);
      SameVisit(call, ls, ev, funName, vs, event, ws, event', k);
    }
  }

  lemma OneRun<B>(call: Listening<B>, ls: seq<Listener>, ev: Event<B>, funName: string,
                  vs: seq<Visit<B>>, event: Event<B>, ws: seq<Visit<B>>, event': Event<B>)
    requires IsRun(call, ls, 0, ev, funName, vs, event) && IsRun(call, ls, 0, ev, funName, ws, event')
    ensures vs == ws && event == event'
  {
    NoLongerRun(call, ls, ev, funName, vs, event, ws, event');
    NoLongerRun(call, ls, ev, funName, ws, event', vs, event);
    forall k | 0 <= k < |vs|
      ensures vs[k] == ws[k]
    {
      SameVisit(call, ls, ev, funName, vs, event, ws, event', k);
    }
  }

  lemma {:induction false} LoopKeepsId<B(!new)>(call: Listening<B>, ls: seq<Listener>, idx: nat, ev: Event<B>, funName: string)
    requires forall lid, f, e :: call(lid, f, e).event.id == e.id
    ensures Loop(call, ls, idx, ev, funName).event.id == ev.id
    decreases |ls| - idx
  {
    if idx < |ls| && !ev.stop {
      var t := TurnOf(call, ls[idx], idx + 1 >= |ls|, ev, funName);
      assert ls[idx].callgent || call(ls[idx].id, FunOf(ls[idx], funName), ev).event.id == ev.id;
      if !t.halts {
        LoopKeepsId(call, ls, idx + 1, t.event, "");
      }
    }
  }

  /** The listener to store: the next one, none after success, else the current one. */
  function NextListener(status: int, ls: seq<Listener>, idx: nat): Option<string> {
    if status == 1 then (if idx < |ls| then Some(ls[idx].id) else None)
    else if status == 0 || (status > 2 && status < 399) then None
    else if 0 < idx <= |ls| then Some(ls[idx - 1].id)
    else None
  }

  /** On success the continuation already stored is kept. */
  function Upsert<B>(prev: Option<Stored<B>>, ev: Event<B>, funName: Option<string>, listenerId: Option<string>): Stored<B> {
    if ev.status == 0 then
      Stored(ev,
             if funName.None? && prev.Some? then prev.value.funName else funName,
             if listenerId.None? && prev.Some? then prev.value.listenerId else listenerId)
    else Stored(ev, funName, listenerId)
  }

  function Saved(funName: string): Option<string> {
    if funName == "" then None else Some(funName)
  }

  /** One run over the listeners, with what is stored at its end. */
  function Pass<B>(call: Listening<B>, ls: seq<Listener>, prev: Option<Stored<B>>, ev: Event<B>, funName: string)
    : (Stored<B>, Calls)
  {
    var l := Loop(call, ls, 0, ev.(status := 1), funName);
    (Upsert(prev, l.event, Saved(l.funName), NextListener(l.event.status, ls, l.idx)), l.calls)
  }

  /** A resume from outside: the invocation it answers, its data, and the rows the database returns. */
  datatype Callback<C> = Callback(invokeId: string, data: C, rows: seq<Listener>)

  /** `setCallbackResponse`: `None` when the event holds no such invocation. */
  type Injecting<!B, !C> = (string, C, B) -> Option<B>

  function NameOf(funName: Option<string>): string {
    if funName.None? then "" else funName.value
  }

  /** A resume that is refused leaves the row as it is and calls nobody. */
  function Resumed<B, C>(call: Listening<B>, inject: Injecting<B, C>, st: Stored<B>, cb: Callback<C>): (Stored<B>, Calls) {
    if st.event.status != 2 then (st, [])
    else
      match inject(cb.invokeId, cb.data, st.event.body)
      case None => (st, [])
      case Some(b) =>
        match ResumedSpec(cb.rows, st.event.route, st.listenerId)
        case Refused(_) => (st, [])
        case Listeners(ls) =>
          if ls == [] then (st, []) else Pass(call, ls, Some(st), st.event.(body := b), NameOf(st.funName))
  }

  class EventListenersService<B(!new)> {
    var store: map<string, Stored<B>>
    /** Every listener function called so far. */
    var calls: Calls

    constructor ()
      ensures store == map[] && calls == []
    {
      store, calls := map[], [];
    }

    method UpsertEvent(event: Event<B>, funName: Option<string>, listenerId: Option<string>)
      modifies this`store
      ensures store == old(store)[event.id :=
                Upsert(if event.id in old(store) then Some(old(store)[event.id]) else None, event, funName, listenerId)]
      ensures event.status != 0 || event.id !in old(store) ==> store[event.id] == Stored(event, funName, listenerId)
      ensures event.status == 0 && event.id in old(store) ==>
                && store[event.id].event == event
                && store[event.id].funName == (if funName.Some? then funName else old(store)[event.id].funName)
                && store[event.id].listenerId == (if listenerId.Some? then listenerId else old(store)[event.id].listenerId)
    {
      var f, l := funName, listenerId;
      if event.status == 0 && event.id in store {
        var row := store[event.id];
        if f.None? {
          f := row.funName;
        }
        if l.None? {
          l := row.listenerId;
        }
      }
      store := store[event.id := Stored(event, f, l)];
    }

    /** The loop over the listeners. */
    method RunListeners(call: Listening<B>, listeners: seq<Listener>, event0: Event<B>, funName0: string)
      returns (event: Event<B>, funName: string, idx: nat, ghost made: Calls)
      modifies this`calls
      ensures Looped(event, funName, idx, made) == Loop(call, listeners, 0, event0, funName0)
      ensures calls == old(calls) + made
    {
      event, funName, idx, made := event0, funName0, 0, [];
      ghost var whole := Loop(call, listeners, 0, event0, funName0);
      while idx < |listeners| && !event.stop
        invariant 0 <= idx <= |listeners|
        invariant calls == old(calls) + made
        invariant whole == After(made, Loop(call, listeners, idx, event, funName))
      {
        var listener := listeners[idx];
        var c := (listener.id, FunOf(listener, funName));
        ghost var turn := TurnOf(call, listener, idx + 1 >= |listeners|, event, funName);
        ghost var before := made;
        LoopTurn(call, listeners, idx, event, funName);
        var result := Invoke(call, listener, funName, event);
        idx := idx + 1;
        calls, made := calls + [c], made + [c];
        if result.Threw? {
          event := result.event.(status := ErrorStatus(result.httpStatus));
          assert turn == Turn(event, funName, true);
          return;
        }
        event, funName := result.event, result.resumeFunName;
        event := event.(status := if funName != "" then 2 else if event.stop || idx >= |listeners| then 0 else 1);
        if funName != "" || event.stop {
          assert turn == Turn(event, funName, true);
          return;
        }
        assert turn == Turn(event, "", idx >= |listeners|);
        AfterTwice(before, c, Loop(call, listeners, idx, event, ""));
      }
    }

    /** Run the listeners, then store the event with its continuation. */
    method InvokeListeners(call: Listening<B>, listeners: seq<Listener>, event0: Event<B>, funName0: string)
      returns (event: Event<B>)
      requires forall lid, f, e :: call(lid, f, e).event.id == e.id
      modifies this
      ensures var (st, cs) := Pass(call, listeners, if event0.id in old(store) then Some(old(store)[event0.id]) else None,
                                   event0, funName0);
              && event == st.event && event.id == event0.id
              && store == old(store)[event0.id := st] && calls == old(calls) + cs
    {
      var funName, idx;
      ghost var made;
      event, funName, idx, made := RunListeners(call, listeners, event0.(status := 1), funName0);
      LoopKeepsId(call, listeners, 0, event0.(status := 1), funName0);
      UpsertEvent(event, Saved(funName), NextListener(event.status, listeners, idx));
    }

    /** Pass a new event to the listeners it meets; `None` when there are none. */
    method Emit(call: Listening<B>, rows: seq<Listener>, event0: Event<B>) returns (event: Option<Event<B>>)
      requires forall lid, f, e :: call(lid, f, e).event.id == e.id
      modifies this
      ensures Candidates(rows, event0.route, false) == [] ==> event.None? && store == old(store) && calls == old(calls)
      ensures Candidates(rows, event0.route, false) != [] ==>
        var (st, cs) := Pass(call, Loaded(rows, event0.route, false),
                             if event0.id in old(store) then Some(old(store)[event0.id]) else None, event0, "");
        event == Some(st.event) && store == old(store)[event0.id := st] && calls == old(calls) + cs
    {
      var loaded := LoadListeners(rows, event0.route, false);
      if loaded.Refused? {
        return None;
      }
      var e := InvokeListeners(call, loaded.list, event0, "");
      return Some(e);
    }

    /** Continue a pending event; `None` is any of the errors that refuse the resume. */
    method Resume<C>(call: Listening<B>, inject: Injecting<B, C>, invokeKey: string, data: C, rows: seq<Listener>)
      returns (event: Option<Event<B>>)
      requires forall lid, f, e :: call(lid, f, e).event.id == e.id
      requires forall id :: id in store ==> store[id].event.id == id
      modifies this
      ensures var (invokeId, id) := InvokeKeys.Parse(invokeKey);
              if id !in old(store) then event.None? && store == old(store) && calls == old(calls)
              else var (st, cs) := Resumed(call, inject, old(store)[id], Callback(invokeId, data, rows));
                   && store == old(store)[id := st] && calls == old(calls) + cs
                   && (event.Some? ==> event.value == st.event)
                   && (event.None? ==> st == old(store)[id])
      ensures forall id :: id in store ==> store[id].event.id == id
    {
      var (invokeId, id) := InvokeKeys.Parse(invokeKey);
      if id !in store {
        return None;
      }
      var row := store[id];
      assert store == store[id := row];
      if row.event.status != 2 {
        return None;
      }
      var body := inject(invokeId, data, row.event.body);
      if body.None? {
        return None;
      }
      var loaded := ResumeListeners(rows, row.event.route, row.listenerId);
      if loaded.Refused? || loaded.list == [] {
        return None;
      }
      var e := InvokeListeners(call, loaded.list, row.event.(body := body.value), NameOf(row.funName));
      return Some(e);
    }
  }

  // --------------------------------------------------- the continuation record

  /** No exception carries 1 or 2 as its HTTP status. */
  ghost predicate HttpErrors<B(!new)>(call: Listening<B>) {
    forall lid, f, e :: call(lid, f, e).Threw? ==> call(lid, f, e).httpStatus !in {1, 2}
  }

  lemma {:induction false} LoopRecord<B(!new)>(call: Listening<B>, ls: seq<Listener>, idx: nat, ev: Event<B>, funName: string)
    requires HttpErrors(call)
    requires idx < |ls| && !ev.stop && ev.status == 1
    ensures var l := Loop(call, ls, idx, ev, funName);
            var n := |l.calls|;
            && n > 0 && l.idx == idx + n <= |ls|
            && l.event.status != 1
            && (l.event.status == 2 ==> l.funName != "")
            && (l.event.status !in {0, 2} ==> l.funName == if n == 1 then funName else "")
            && (l.event.status == 0 ==> l.funName == "" && (l.event.stop || l.idx == |ls|))
            && l.calls[n - 1].0 == ls[l.idx - 1].id
    decreases |ls| - idx
  {
    match Invoke(call, ls[idx], funName, ev)
    case Threw(e, h) =>
      assert call(ls[idx].id, FunOf(ls[idx], funName), ev).Threw?;
    case Ok(e, f) =>
      if f == "" && !e.stop && idx + 1 < |ls| {
        LoopRecord(call, ls, idx + 1, e.(status := 1), "");
        var rest := Loop(call, ls, idx + 1, e.(status := 1), "");
        var l := Loop(call, ls, idx, ev, funName);
        assert l.calls[|l.calls| - 1] == rest.calls[|rest.calls| - 1];
      }
  }

  /**
   * A run over a non-empty list that starts unstopped never ends as still
   * processing.  Unless it succeeds, a function to resume with is saved exactly
   * when it ends pending, or when the very stage that was resumed failed: that
   * error keeps the stage's name.  The listener stored with a suspension or an
   * error is the last one called, unless the error's status lies between 3 and
   * 398; after success the continuation stored earlier is kept.
   */
  lemma ContinuationIsExact<B(!new)>(call: Listening<B>, ls: seq<Listener>, prev: Option<Stored<B>>,
                                     ev: Event<B>, funName: string)
    requires HttpErrors(call) && ls != [] && !ev.stop
    ensures var (st, calls) := Pass(call, ls, prev, ev, funName);
            && calls != [] && st.event.status != 1
            && (st.event.status != 0 ==>
                  (st.funName.Some? <==> st.event.status == 2 || (|calls| == 1 && funName != "")))
            && (st.event.status !in {0, 2} && |calls| == 1 ==> st.funName == Saved(funName))
            && (st.event.status != 0 ==>
                  st.listenerId == if 2 < st.event.status < 399 then None else Some(calls[|calls| - 1].0))
            && (st.event.status == 0 ==> st.funName == if prev.Some? then prev.value.funName else None)
            && (st.event.status == 0 ==> st.listenerId == if prev.Some? then prev.value.listenerId else None)
  {
    LoopRecord(call, ls, 0, ev.(status := 1), funName);
  }

  /** A list that is empty, or an event that is stopped beforehand, is left as processing. */
  lemma StoppedStaysProcessing<B(!new)>(call: Listening<B>, ls: seq<Listener>, prev: Option<Stored<B>>,
                                        ev: Event<B>, funName: string)
    requires HttpErrors(call)
    ensures Pass(call, ls, prev, ev, funName).0.event.status == 1 <==> ls == [] || ev.stop
  {
    if ls != [] && !ev.stop {
      LoopRecord(call, ls, 0, ev.(status := 1), funName);
    }
  }
}
