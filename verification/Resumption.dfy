/**
 * An event that is suspended and resumed any number of times makes the same
 * calls as one that runs through (src/event-listeners/event-listeners.service.ts).
 */
module Resumption {
  import opened Common
  import opened ListenerOrder
  import opened EventPipeline

  /**
   * A run without interruption; `clean` says that no resumed stage began on an
   * event that an earlier stage had stopped.
   */
  datatype Whole<B> = Whole(calls: Calls, event: Event<B>, clean: bool)

  function Then<B>(made: Calls, w: Whole<B>): Whole<B> {
    w.(calls := made + w.calls)
  }

  /**
   * The reference: every listener in order, each with all its stages back to
   * back.  A stage that wants to be resumed takes the next callback that fits.
   */
  function Uninterrupted<B, C>(call: Listening<B>, inject: Injecting<B, C>, ls: seq<Listener>, i: nat,
                               funName: string, ev: Event<B>, cbs: seq<Callback<C>>): Whole<B>
    decreases |cbs|, |ls| - i, 1
  {
    if i >= |ls| || (ev.stop && funName == "") then Whole([], ev, true)
    else
      var c := (ls[i].id, FunOf(ls[i], funName));
      match Invoke(call, ls[i], funName, ev)
      case Threw(e, h) => Whole([c], e.(status := ErrorStatus(h)), true)
      case Ok(e, f) =>
        if f != "" then Then([c], Answered(call, inject, ls, i, f, e.(status := 2), cbs))
        else if e.stop || i + 1 >= |ls| then Whole([c], e.(status := 0), true)
        else Then([c], Uninterrupted(call, inject, ls, i + 1, "", e.(status := 1), cbs))
  }

  function Answered<B, C>(call: Listening<B>, inject: Injecting<B, C>, ls: seq<Listener>, i: nat,
                          funName: string, ev: Event<B>, cbs: seq<Callback<C>>): Whole<B>
    decreases |cbs|, |ls| - i, 0
  {
    if cbs == [] then Whole([], ev, true)
    else
      match inject(cbs[0].invokeId, cbs[0].data, ev.body)
      case None => Answered(call, inject, ls, i, funName, ev, cbs[1..])
      case Some(b) =>
        var w := Uninterrupted(call, inject, ls, i, funName, ev.(body := b, status := 1), cbs[1..]);
        w.(clean := w.clean && !ev.stop)
  }

  /** Resume after resume on the stored row. */
  function Continued<B, C>(call: Listening<B>, inject: Injecting<B, C>, st: Stored<B>, cbs: seq<Callback<C>>): (Stored<B>, Calls)
    decreases |cbs|
  {
    if cbs == [] then (st, [])
    else
      var (st1, c1) := Resumed(call, inject, st, cbs[0]);
      var (st2, c2) := Continued(call, inject, st1, cbs[1..]);
      (st2, c1 + c2)
  }

  /** An emission followed by any number of resumes. */
  function EmittedAndResumed<B, C>(call: Listening<B>, inject: Injecting<B, C>, rows: seq<Listener>, ev: Event<B>,
                                   cbs: seq<Callback<C>>): (Stored<B>, Calls)
  {
    var (st, c1) := Pass(call, Loaded(rows, ev.route, false), None, ev, "");
    var (st2, c2) := Continued(call, inject, st, cbs);
    (st2, c1 + c2)
  }

  // ------------------------------------------------------------------ proof

  /** The listener table does not change and orders its rows strictly; nobody rewrites an event's route. */
  ghost predicate Steady<B(!new), C>(call: Listening<B>, rows: seq<Listener>, r: Route, cbs: seq<Callback<C>>) {
    && HttpErrors(call)
    && (forall lid, f, e :: call(lid, f, e).event.route == e.route)
    && DistinctIds(rows) && Strict(Loaded(rows, r, true)) && (forall l :: l in rows ==> l.id != "")
    && (forall cb :: cb in cbs ==> multiset(cb.rows) == multiset(rows))
  }

  lemma {:induction false} LoopShift<B>(call: Listening<B>, ls: seq<Listener>, i: nat, k: nat, ev: Event<B>, funName: string)
    requires i <= |ls| && i + k <= |ls|
    ensures var l := Loop(call, ls[i..], k, ev, funName);
            Loop(call, ls, i + k, ev, funName) == l.(idx := i + l.idx)
    decreases |ls| - k
  {
    if i + k < |ls| && !ev.stop {
      assert ls[i..][k] == ls[i + k];
      match Invoke(call, ls[i + k], funName, ev)
      case Threw(e, h) =>
      case Ok(e, f) =>
        if f == "" && !e.stop && i + k + 1 < |ls| {
          LoopShift(call, ls, i, k + 1, e.(status := 1), "");
        }
    }
  }

  lemma {:induction false} LoopKeepsRoute<B(!new)>(call: Listening<B>, ls: seq<Listener>, i: nat, ev: Event<B>, funName: string)
    requires forall lid, f, e :: call(lid, f, e).event.route == e.route
    ensures Loop(call, ls, i, ev, funName).event.route == ev.route
    decreases |ls| - i
  {
    if i < |ls| && !ev.stop {
      match Invoke(call, ls[i], funName, ev)
      case Threw(e, h) =>
        assert call(ls[i].id, FunOf(ls[i], funName), ev).event.route == ev.route;
      case Ok(e, f) =>
        assert e.route == ev.route by {
          assert ls[i].callgent || call(ls[i].id, FunOf(ls[i], funName), ev).event.route == ev.route;
        }
        if f == "" && !e.stop && i + 1 < |ls| {
          LoopKeepsRoute(call, ls, i + 1, e.(status := 1), "");
        }
    }
  }

  /** The reference run is the loop up to its first suspension, then the answered stages. */
  lemma {:induction false} Decompose<B(!new), C>(call: Listening<B>, inject: Injecting<B, C>, ls: seq<Listener>, i: nat,
                                           funName: string, ev: Event<B>, cbs: seq<Callback<C>>)
    requires HttpErrors(call) && i < |ls| && !ev.stop && ev.status == 1
    ensures var l := Loop(call, ls, i, ev, funName);
            var u := Uninterrupted(call, inject, ls, i, funName, ev, cbs);
            && l.idx > i
            && u == if l.event.status == 2
                    then Then(l.calls, Answered(call, inject, ls, l.idx - 1, l.funName, l.event, cbs))
                    else Whole(l.calls, l.event, true)
    decreases |ls| - i
  {
    match Invoke(call, ls[i], funName, ev)
    case Threw(e, h) =>
      assert call(ls[i].id, FunOf(ls[i], funName), ev).Threw?;
    case Ok(e, f) =>
      if f == "" && !e.stop && i + 1 < |ls| {
        Decompose(call, inject, ls, i + 1, "", e.(status := 1), cbs);
        var c := (ls[i].id, FunOf(ls[i], funName));
        var l := Loop(call, ls, i + 1, e.(status := 1), "");
        var a := Answered(call, inject, ls, l.idx - 1, l.funName, l.event, cbs);
        assert [c] + (l.calls + a.calls) == ([c] + l.calls) + a.calls;
      }
  }

  /** The row is suspended in stage `funName` of listener `i`. */
  ghost predicate SuspendedAt<B>(st: Stored<B>, ls: seq<Listener>, i: nat, funName: string, r: Route) {
    && i < |ls| && st.event.status == 2 && st.event.route == r
    && funName != "" && st.funName == Some(funName) && st.listenerId == Some(ls[i].id)
  }

  /** A resume finds the rest of the emission's list. */
  lemma ResumedList<B(!new), C>(call: Listening<B>, rows: seq<Listener>, r: Route, i: nat, cb: Callback<C>, cbs: seq<Callback<C>>)
    requires Steady(call, rows, r, cbs) && cb in cbs && i < |Loaded(rows, r, false)|
    ensures var ls := Loaded(rows, r, false);
            ResumedSpec(cb.rows, r, Some(ls[i].id)) == Listeners(ls[i..])
  {
    var ls := Loaded(rows, r, false);
    SortSorts(Candidates(rows, r, false));
    assert ls[i] in multiset(ls);
    ResumeFindsSuffix(rows, cb.rows, r, i);
  }

  /** An accepted resume runs the suspended listener's stage and goes on from there. */
  lemma ResumeIsPass<B(!new), C>(call: Listening<B>, inject: Injecting<B, C>, rows: seq<Listener>, r: Route, st: Stored<B>,
                           i: nat, funName: string, cb: Callback<C>, cbs: seq<Callback<C>>)
    requires Steady(call, rows, r, cbs) && cb in cbs
    requires SuspendedAt(st, Loaded(rows, r, false), i, funName, r)
    requires inject(cb.invokeId, cb.data, st.event.body).Some?
    ensures var ls := Loaded(rows, r, false);
            var ev := st.event.(body := inject(cb.invokeId, cb.data, st.event.body).value, status := 1);
            var l := Loop(call, ls, i, ev, funName);
            var (st', made) := Resumed(call, inject, st, cb);
            && made == l.calls && st'.event == l.event
            && (!st.event.stop && l.event.status == 2 ==> l.idx > 0 && SuspendedAt(st', ls, l.idx - 1, l.funName, r))
  {
    var ls := Loaded(rows, r, false);
    ResumedList(call, rows, r, i, cb, cbs);
    var ev := st.event.(body := inject(cb.invokeId, cb.data, st.event.body).value, status := 1);
    LoopShift(call, ls, i, 0, ev, funName);
    assert Resumed(call, inject, st, cb) == Pass(call, ls[i..], Some(st), ev, funName) by {
      assert ev.(status := 1) == st.event.(body := ev.body).(status := 1);
    }
    LoopKeepsRoute(call, ls, i, ev, funName);
    if !st.event.stop {
      LoopRecord(call, ls, i, ev, funName);
    }
  }

  lemma {:induction false} RefusedOnceOver<B, C>(call: Listening<B>, inject: Injecting<B, C>, st: Stored<B>,
                                                cbs: seq<Callback<C>>)
    requires st.event.status != 2
    ensures Continued(call, inject, st, cbs) == (st, [])
    decreases |cbs|
  {
    if cbs != [] {
      RefusedOnceOver(call, inject, st, cbs[1..]);
      var none: Calls := [];
      assert none + none == none;
    }
  }

  /** How a continuation compares with the answered stages of the reference run. */
  ghost predicate Agrees<B>(a: Whole<B>, st: Stored<B>, made: Calls) {
    && (a.clean ==> a.calls == made && a.event == st.event)
    && (!a.clean ==> |a.calls| > |made|)
  }

  lemma ThenAgrees<B>(made: Calls, a: Whole<B>, st: Stored<B>, more: Calls)
    requires Agrees(a, st, more)
    ensures Agrees(Then(made, a), st, made + more)
  {}

  /** From a suspended row on: the same calls and the same event, exactly if the run is clean. */
  lemma {:induction false} ContinuedIsAnswered<B(!new), C>(call: Listening<B>, inject: Injecting<B, C>,
                                                     rows: seq<Listener>, r: Route,
                                                     st: Stored<B>, i: nat, funName: string, cbs: seq<Callback<C>>)
    requires Steady(call, rows, r, cbs)
    requires SuspendedAt(st, Loaded(rows, r, false), i, funName, r)
    ensures var (st', made) := Continued(call, inject, st, cbs);
            Agrees(Answered(call, inject, Loaded(rows, r, false), i, funName, st.event, cbs), st', made)
    decreases |cbs|, 1
  {
    if cbs != [] {
      if inject(cbs[0].invokeId, cbs[0].data, st.event.body).None? {
        ContinuedIsAnswered(call, inject, rows, r, st, i, funName, cbs[1..]);
        var rest := Continued(call, inject, st, cbs[1..]);
        assert [] + rest.1 == rest.1;
      } else {
        AcceptedIsAnswered(call, inject, rows, r, st, i, funName, cbs);
      }
    }
  }

  lemma {:induction false} AcceptedIsAnswered<B(!new), C>(call: Listening<B>, inject: Injecting<B, C>,
                                                     rows: seq<Listener>, r: Route,
                                                    st: Stored<B>, i: nat, funName: string, cbs: seq<Callback<C>>)
    requires Steady(call, rows, r, cbs) && cbs != []
    requires SuspendedAt(st, Loaded(rows, r, false), i, funName, r)
    requires inject(cbs[0].invokeId, cbs[0].data, st.event.body).Some?
    ensures var (st', made) := Continued(call, inject, st, cbs);
            Agrees(Answered(call, inject, Loaded(rows, r, false), i, funName, st.event, cbs), st', made)
    decreases |cbs|, 0
  {
    var cb := cbs[0];
    var rest := cbs[1..];
    var ev := st.event.(body := inject(cb.invokeId, cb.data, st.event.body).value, status := 1);
    ResumeIsPass(call, inject, rows, r, st, i, funName, cb, cbs);
    var (st1, made) := Resumed(call, inject, st, cb);
    if ev.stop {
      RefusedOnceOver(call, inject, st1, rest);
      StageCalls(call, inject, Loaded(rows, r, false), i, funName, ev, rest);
    } else {
      RunAgrees(call, inject, rows, r, st1, i, funName, ev, rest);
      var (st2, more) := Continued(call, inject, st1, rest);
      GoesOn(call, inject, Loaded(rows, r, false), i, funName, ev, rest, st2, more);
    }
  }

  /** A resumed stage of the reference run calls somebody, even on a stopped event. */
  lemma StageCalls<B, C>(call: Listening<B>, inject: Injecting<B, C>, ls: seq<Listener>, i: nat, funName: string,
                         ev: Event<B>, cbs: seq<Callback<C>>)
    requires i < |ls| && funName != ""
    ensures |Uninterrupted(call, inject, ls, i, funName, ev, cbs).calls| > 0
  {}

  /** The calls of a loop and those that follow agree with the reference run. */
  lemma GoesOn<B(!new), C>(call: Listening<B>, inject: Injecting<B, C>, ls: seq<Listener>, i: nat, funName: string,
                     ev: Event<B>, cbs: seq<Callback<C>>, st: Stored<B>, more: Calls)
    requires HttpErrors(call) && i < |ls| && !ev.stop && ev.status == 1
    requires Agrees(FollowUp(call, inject, ls, Loop(call, ls, i, ev, funName), cbs), st, more)
    ensures Agrees(Uninterrupted(call, inject, ls, i, funName, ev, cbs), st, Loop(call, ls, i, ev, funName).calls + more)
  {
    var l := Loop(call, ls, i, ev, funName);
    Decompose(call, inject, ls, i, funName, ev, cbs);
    ThenAgrees(l.calls, FollowUp(call, inject, ls, l, cbs), st, more);
    assert l.calls + [] == l.calls;
  }

  /** What follows a loop in the reference run. */
  function FollowUp<B, C>(call: Listening<B>, inject: Injecting<B, C>, ls: seq<Listener>, l: Looped<B>,
                          cbs: seq<Callback<C>>): Whole<B>
  {
    if l.event.status == 2 && l.idx > 0 then Answered(call, inject, ls, l.idx - 1, l.funName, l.event, cbs)
    else Whole([], l.event, true)
  }

  /** The row that a loop leaves is continued as the reference run goes on. */
  lemma {:induction false} RunAgrees<B(!new), C>(call: Listening<B>, inject: Injecting<B, C>, rows: seq<Listener>, r: Route,
                                           st: Stored<B>, i: nat, funName: string, ev: Event<B>, cbs: seq<Callback<C>>)
    requires Steady(call, rows, r, cbs)
    requires var ls := Loaded(rows, r, false);
             var l := Loop(call, ls, i, ev, funName);
             st.event == l.event && (l.event.status == 2 ==> l.idx > 0 && SuspendedAt(st, ls, l.idx - 1, l.funName, r))
    ensures var ls := Loaded(rows, r, false);
            var (st', made) := Continued(call, inject, st, cbs);
            Agrees(FollowUp(call, inject, ls, Loop(call, ls, i, ev, funName), cbs), st', made)
    decreases |cbs|, 2
  {
    var l := Loop(call, Loaded(rows, r, false), i, ev, funName);
    if l.event.status == 2 {
      ContinuedIsAnswered(call, inject, rows, r, st, l.idx - 1, l.funName, cbs);
    } else {
      RefusedOnceOver(call, inject, st, cbs);
    }
  }

  /**
   * The interrupted run equals the uninterrupted one: with a listener set that
   * does not change and has no ties, in whatever order the database returns it
   * and whichever callbacks arrive, an emission followed by resumes makes exactly
   * the calls of the reference run and ends with the same event, if and only if
   * no callback is accepted by an event that its suspending stage also stopped.
   */
  lemma InterruptedEqualsUninterrupted<B(!new), C>(call: Listening<B>, inject: Injecting<B, C>, rows: seq<Listener>,
                                             ev: Event<B>, cbs: seq<Callback<C>>)
    requires Steady(call, rows, ev.route, cbs)
    requires Loaded(rows, ev.route, false) != [] && !ev.stop
    ensures var u := Uninterrupted(call, inject, Loaded(rows, ev.route, false), 0, "", ev.(status := 1), cbs);
            var (st, calls) := EmittedAndResumed(call, inject, rows, ev, cbs);
            && (calls == u.calls <==> u.clean)
            && (u.clean ==> st.event == u.event)
  {
    var ls := Loaded(rows, ev.route, false);
    var e := ev.(status := 1);
    var l := Loop(call, ls, 0, e, "");
    Decompose(call, inject, ls, 0, "", e, cbs);
    LoopRecord(call, ls, 0, e, "");
    LoopKeepsRoute(call, ls, 0, e, "");
    var (st, made) := Pass(call, ls, None, ev, "");
    if l.event.status == 2 {
      ContinuedIsAnswered(call, inject, rows, ev.route, st, l.idx - 1, l.funName, cbs);
    } else {
      RefusedOnceOver(call, inject, st, cbs);
      assert made + [] == made;
    }
  }

  // ------------------------------------------------- a condition on listeners

  /** No stage that is called on a running event both asks to be resumed and stops the event. */
  ghost predicate NeverBoth<B(!new)>(call: Listening<B>) {
    forall lid, f, e: Event<B> :: !e.stop && e.status == 1 && call(lid, f, e).Ok? && call(lid, f, e).resumeFunName != "" ==>
      !call(lid, f, e).event.stop
  }

  lemma {:induction false} NeverBothIsClean<B(!new), C>(call: Listening<B>, inject: Injecting<B, C>, ls: seq<Listener>,
                                                       i: nat, funName: string, ev: Event<B>, cbs: seq<Callback<C>>)
    requires NeverBoth(call) && !ev.stop && ev.status == 1
    ensures Uninterrupted(call, inject, ls, i, funName, ev, cbs).clean
    decreases |cbs|, |ls| - i, 1
  {
    if i < |ls| {
      match Invoke(call, ls[i], funName, ev)
      case Threw(e, h) =>
      case Ok(e, f) =>
        if f != "" {
          assert call(ls[i].id, FunOf(ls[i], funName), ev).Ok?;
          AnsweredIsClean(call, inject, ls, i, f, e.(status := 2), cbs);
        } else if !e.stop && i + 1 < |ls| {
          NeverBothIsClean(call, inject, ls, i + 1, "", e.(status := 1), cbs);
        }
    }
  }

  lemma {:induction false} AnsweredIsClean<B(!new), C>(call: Listening<B>, inject: Injecting<B, C>, ls: seq<Listener>,
                                                      i: nat, funName: string, ev: Event<B>, cbs: seq<Callback<C>>)
    requires NeverBoth(call) && !ev.stop
    ensures Answered(call, inject, ls, i, funName, ev, cbs).clean
    decreases |cbs|, |ls| - i, 0
  {
    if cbs != [] {
      match inject(cbs[0].invokeId, cbs[0].data, ev.body)
      case None => AnsweredIsClean(call, inject, ls, i, funName, ev, cbs[1..]);
      case Some(b) => NeverBothIsClean(call, inject, ls, i, funName, ev.(body := b, status := 1), cbs[1..]);
    }
  }

  /** If no stage ever does both, every interrupted run equals the uninterrupted one. */
  lemma EqualWithoutStops<B(!new), C>(call: Listening<B>, inject: Injecting<B, C>, rows: seq<Listener>,
                                      ev: Event<B>, cbs: seq<Callback<C>>)
    requires Steady(call, rows, ev.route, cbs) && NeverBoth(call)
    requires Loaded(rows, ev.route, false) != [] && !ev.stop
    ensures var u := Uninterrupted(call, inject, Loaded(rows, ev.route, false), 0, "", ev.(status := 1), cbs);
            var (st, calls) := EmittedAndResumed(call, inject, rows, ev, cbs);
            calls == u.calls && st.event == u.event
  {
    NeverBothIsClean(call, inject, Loaded(rows, ev.route, false), 0, "", ev.(status := 1), cbs);
    InterruptedEqualsUninterrupted(call, inject, rows, ev, cbs);
  }

  function OnlyListener(lid: string, f: string): Listener {
    Listener(lid, "*", "*", "*", None, f, false, 0)
  }

  lemma FilterOne<T(!new)>(x: T, p: T -> bool)
    requires p(x)
    ensures Filter([x], p) == [x]
  {
    assert Filter([x][1..], p) == [];
  }

  lemma LoadsOne(l: Listener, r: Route)
    requires l.srcId == "*" && l.eventType == "*" && l.dataType == "*" && l.deletedAt == 0
    ensures Loaded([l], r, false) == [l] && Loaded([l], r, true) == [l] && Live([l]) == [l]
    ensures Candidates([l], r, true) == [l]
  {
    FilterOne(l, (x: Listener) => Matches(x, r) && Visible(x, false));
    FilterOne(l, (x: Listener) => Matches(x, r) && Visible(x, true));
    FilterOne(l, (x: Listener) => x.deletedAt == 0);
    assert Sort([l]) == Insert(l, Sort([]));
  }

  /**
   * The converse, for every stage that does both on a running event: alone in the
   * table, its one accepted callback calls nobody and leaves the event processing
   * for good, whereas the uninterrupted run calls the stage it asked for.
   */
  lemma StopLosesResume<B(!new), C>(call: Listening<B>, inject: Injecting<B, C>, lid: string, f: string,
                                    ev: Event<B>, cb: Callback<C>)
    requires !ev.stop && ev.status == 1
    requires var r := call(lid, f, ev);
             r.Ok? && r.resumeFunName != "" && r.event.stop && inject(cb.invokeId, cb.data, r.event.body).Some?
    requires cb.rows == [OnlyListener(lid, f)]
    ensures var u := Uninterrupted(call, inject, [OnlyListener(lid, f)], 0, "", ev, [cb]);
            var (st, calls) := EmittedAndResumed(call, inject, [OnlyListener(lid, f)], ev, [cb]);
            && calls == [(lid, f)] && st.event.status == 1
            && [(lid, f), (lid, call(lid, f, ev).resumeFunName)] <= u.calls
  {
    var l := OnlyListener(lid, f);
    var called := call(lid, f, ev);
    LoadsOne(l, ev.route);
    LoadsOne(l, called.event.route);
    var (st, c1) := Pass(call, [l], None, ev, "");
    assert Invoke(call, l, "", ev) == called;
    assert ev.(status := 1) == ev;
    assert Loop(call, [l], 0, ev, "") == Looped(called.event.(status := 2), called.resumeFunName, 1, [(lid, f)]);
    assert IndexOfId([l], lid) == 0 && [l][0..] == [l];
    assert ResumedSpec(cb.rows, st.event.route, st.listenerId) == Listeners([l]);
    var b := inject(cb.invokeId, cb.data, called.event.body).value;
    var (st1, c2) := Resumed(call, inject, st, cb);
    assert c2 == [] && st1.event.status == 1;
    assert [cb][1..] == [];
    assert Continued(call, inject, st, [cb]) == (st1, c2 + []);
    var ev2 := called.event.(body := b, status := 1);
    var rest := Uninterrupted(call, inject, [l], 0, called.resumeFunName, ev2, []);
    assert rest.calls[0] == (lid, called.resumeFunName);
    var a := Answered(call, inject, [l], 0, called.resumeFunName, called.event.(status := 2), [cb]);
    assert a.calls == rest.calls;
  }

  /** A stage that stops the event and asks to be resumed as "again". */
  function StopAndAsk(lid: string, f: string, e: Event<int>): Returned<int> {
    if f == "first" then Ok(e.(stop := true), "again") else Ok(e, "")
  }

  function TakeData(invokeId: string, data: int, body: int): Option<int> {
    Some(data)
  }

  /** With such a listener alone in the table, "again" is never called. */
  lemma LostResumeExists()
    ensures var rows := [OnlyListener("a", "first")];
            var ev := Event("1", Route("s", "e", "d"), 0, false, 1);
            var cbs := [Callback("", 7, rows)];
            var (st, calls) := EmittedAndResumed(StopAndAsk, TakeData, rows, ev, cbs);
            && calls == [("a", "first")] && st.event.status == 1
            && [("a", "first"), ("a", "again")] <= Uninterrupted(StopAndAsk, TakeData, rows, 0, "", ev, cbs).calls
  {
    var ev := Event("1", Route("s", "e", "d"), 0, false, 1);
    StopLosesResume(StopAndAsk, TakeData, "a", "first", ev, Callback("", 7, [OnlyListener("a", "first")]));
  }

  // ------------------------------------------------- each suspension is resumed once

  /** The callback passes the guard and starts a run. */
  predicate Accepts<B, C>(inject: Injecting<B, C>, st: Stored<B>, cb: Callback<C>) {
    && st.event.status == 2 && inject(cb.invokeId, cb.data, st.event.body).Some?
    && var found := ResumedSpec(cb.rows, st.event.route, st.listenerId); found.Listeners? && found.list != []
  }

  /** How many of the callbacks start a run, and how many of those runs suspend the event again. */
  function Tally<B, C>(call: Listening<B>, inject: Injecting<B, C>, st: Stored<B>, cbs: seq<Callback<C>>): (nat, nat)
    decreases |cbs|
  {
    if cbs == [] then (0, 0)
    else
      var st1 := Resumed(call, inject, st, cbs[0]).0;
      var (runs, suspensions) := Tally(call, inject, st1, cbs[1..]);
      if Accepts(inject, st, cbs[0]) then (runs + 1, suspensions + SuspendedNow(st1)) else (runs, suspensions)
  }

  function SuspendedNow<B>(st: Stored<B>): nat {
    if st.event.status == 2 then 1 else 0
  }

  /**
   * Each suspension is resumed at most once: over any callbacks, the runs they
   * start are as many as the suspensions there were, less one if the event is
   * still suspended; a callback that starts no run changes nothing.
   */
  lemma {:induction false} EachSuspensionOnce<B, C>(call: Listening<B>, inject: Injecting<B, C>, st: Stored<B>,
                                                   cbs: seq<Callback<C>>)
    ensures var (runs, suspensions) := Tally(call, inject, st, cbs);
            runs + SuspendedNow(Continued(call, inject, st, cbs).0) == SuspendedNow(st) + suspensions
    ensures forall cb :: !Accepts(inject, st, cb) ==> Resumed(call, inject, st, cb) == (st, [])
    decreases |cbs|
  {
    if cbs != [] {
      EachSuspensionOnce(call, inject, Resumed(call, inject, st, cbs[0]).0, cbs[1..]);
    }
  }
}
