/**
 * The resumable processor chain of an endpoint invocation
 * (src/invoke/invoke-sep.service.ts, src/invoke/chain/sep.processor.ts).
 *
 * A processor's own work is an arbitrary function of its saved context, the
 * previous reply and a world of any type `W`; it may call `break` or `end`.
 */
module SepChain {
  import opened Common

  /** `status.processor`: where to go on, and the running processor's break flag. */
  datatype Cursor = Cursor(name: Option<string>, ctx: Option<string>, breakCurrent: Option<bool>)

  /** What one `_process` call did: `ended` is a call of `end`, `brk` one of `break`. */
  datatype Effect<W> = Effect(world: W, reply: Reply, ended: bool, brk: Option<bool>,
                              ctx: Option<string>, failed: bool)

  datatype Proc<!W> = Proc(name: string, run: (Option<string>, Reply, W) -> Effect<W>)

  /** One call of the chain: the processors that ran, then what is left behind. */
  datatype Outcome<W> = Outcome(ran: seq<nat>, cursor: Option<Cursor>, reply: Reply, world: W, thrown: bool)

  /** An absent or empty name is falsy. */
  predicate Named(c: Cursor) {
    c.name.Some? && c.name.value != ""
  }

  function NextName<W>(ps: seq<Proc<W>>, i: nat): Option<string> {
    if i + 1 < |ps| then Some(ps[i + 1].name) else None
  }

  /** The cursor as `_process` leaves it. */
  function Touched<W>(c: Cursor, e: Effect<W>): Cursor {
    Cursor(if e.ended then None else c.name, e.ctx, if e.brk.Some? then e.brk else c.breakCurrent)
  }

  /** The cursor after the bookkeeping that follows `_process`. */
  function Advance(c: Cursor, next: Option<string>): Cursor {
    Cursor(if c.breakCurrent != Some(true) && Named(c) then next else c.name, c.ctx, None)
  }

  predicate Stops(c: Cursor, next: Option<string>) {
    !Named(Advance(c, next)) || c.breakCurrent.Some?
  }

  /** The processor loop from position `i` on. */
  function RunFrom<W>(ps: seq<Proc<W>>, i: nat, cur: Option<Cursor>, pre: Reply, w: W): Outcome<W>
    decreases |ps| - i
  {
    if i >= |ps| then Outcome([], cur, Missing, w, false)
    else if cur.Some? && cur.value.name != Some(ps[i].name) then RunFrom(ps, i + 1, cur, pre, w)
    else
      var c := if cur.Some? then cur.value else Cursor(Some(ps[i].name), None, None);
      var e := ps[i].run(c.ctx, pre, w);
      var t := Touched(c, e);
      var next := NextName(ps, i);
      if e.failed then Outcome([i], Some(t), Missing, e.world, true)
      else if Stops(t, next) then Outcome([i], Some(Advance(t, next)), e.reply, e.world, false)
      else Prepend([i], RunFrom(ps, i + 1, Some(Advance(t, next)), e.reply, e.world))
  }

  function Prepend<W>(ran: seq<nat>, o: Outcome<W>): Outcome<W> {
    o.(ran := ran + o.ran)
  }

  lemma PrependTwice<W>(ran: seq<nat>, i: nat, o: Outcome<W>)
    ensures Prepend(ran, Prepend([i], o)) == Prepend(ran + [i], o)
  {
    assert ran + ([i] + o.ran) == (ran + [i]) + o.ran;
  }

  /** A whole call: enter at the start or at the saved name; after `end`, run nothing. */
  function Run<W>(ps: seq<Proc<W>>, cur: Option<Cursor>, response: Json, w: W): Outcome<W> {
    if cur.None? || Named(cur.value) then RunFrom(ps, 0, cur, Done(response), w)
    else Outcome([], cur, Done(response), w, false)
  }

  /** The part of an invocation's status that the chain updates in place. */
  class InvokeStatus {
    var processor: Option<Cursor>
    var response: Json

    constructor (processor: Option<Cursor>, response: Json)
      ensures this.processor == processor && this.response == response
    {
      this.processor := processor;
      this.response := response;
    }

    /** Stop here; next time start from the current processor or the next one. */
    method Break(current: bool)
      requires processor.Some?
      modifies this`processor
      ensures processor == Some(old(processor.value).(breakCurrent := Some(current)))
    {
      processor := Some(processor.value.(breakCurrent := Some(current)));
    }

    /** End the whole chain. */
    method End()
      requires processor.Some?
      modifies this`processor
      ensures processor == Some(old(processor.value).(name := None))
    {
      processor := Some(processor.value.(name := None));
    }

    /** Run one processor, then move the cursor and decide whether to stop. */
    method Process<W>(p: Proc<W>, next: Option<string>, preData: Reply, w: W)
      returns (data: Reply, stop: bool, w': W, threw: bool)
      requires processor.Some?
      modifies this`processor
      ensures var e := p.run(old(processor.value.ctx), preData, w);
              var t := Touched(old(processor.value), e);
              && w' == e.world && threw == e.failed
              && (threw ==> processor == Some(t))
              && (!threw ==> processor == Some(Advance(t, next)) && stop == Stops(t, next) && data == e.reply)
    {
      var e := p.run(processor.value.ctx, preData, w);
      processor := Some(processor.value.(ctx := e.ctx));
      if e.brk.Some? {
        Break(e.brk.value);
      }
      if e.ended {
        End();
      }
      data, w', threw, stop := e.reply, e.world, e.failed, false;
      if threw {
        return;
      }
      var breakCurrent := processor.value.breakCurrent;
      if breakCurrent != Some(true) && Named(processor.value) {
        processor := Some(processor.value.(name := next));
      }
      processor := Some(processor.value.(breakCurrent := None));
      stop := !Named(processor.value) || breakCurrent.Some?;
    }

    /** The loop over the processors; `ran` records which ones it entered. */
    method Chain<W>(ps: seq<Proc<W>>, w: W) returns (reply: Reply, w': W, threw: bool, ghost ran: seq<nat>)
      modifies this`processor
      ensures Outcome(ran, processor, reply, w', threw) == Run(ps, old(processor), response, w)
    {
      reply, w', threw, ran := Missing, w, false, [];
      if processor.None? || Named(processor.value) {
        var preData := Done(response);
        var i := 0;
        while i < |ps|
          invariant 0 <= i <= |ps|
          invariant processor.None? ==> i == 0
          invariant Run(ps, old(processor), response, w) == Prepend(ran, RunFrom(ps, i, processor, preData, w'))
        {
          var p := ps[i];
          if processor.None? {
            processor := Some(Cursor(Some(p.name), None, None));
          } else if processor.value.name != Some(p.name) {
            i := i + 1;
            continue;
          }
          var stop;
          var data;
          ghost var before := ran;
          ran := ran + [i];
          data, stop, w', threw := Process(p, NextName(ps, i), preData, w');
          if threw {
            return;
          }
          preData := data;
          if stop {
            reply := data;
            return;
          }
          PrependTwice(before, i, RunFrom(ps, i + 1, processor, preData, w'));
          i := i + 1;
        }
      } else {
        reply := Done(response);
      }
    }
  }

  // ---------------------------------------------------------------- properties

  /** The processors' names are distinct and not empty. */
  ghost predicate WellNamed<W>(ps: seq<Proc<W>>) {
    && |ps| > 0
    && (forall i :: 0 <= i < |ps| ==> ps[i].name != "")
    && (forall i, j :: 0 <= i < j < |ps| ==> ps[i].name != ps[j].name)
  }

  /** Where the next call starts; the length of the list once the chain has ended. */
  function Position<W>(ps: seq<Proc<W>>, cur: Option<Cursor>): nat {
    if cur.None? then 0 else if !Named(cur.value) then |ps| else IndexFrom(ps, 0, cur.value.name.value)
  }

  function IndexFrom<W>(ps: seq<Proc<W>>, i: nat, name: string): (k: nat)
    requires i <= |ps|
    ensures i <= k <= |ps|
    ensures k < |ps| ==> ps[k].name == name
    ensures forall j :: i <= j < k ==> ps[j].name != name
    decreases |ps| - i
  {
    if i == |ps| || ps[i].name == name then i else IndexFrom(ps, i + 1, name)
  }

  /** A cursor a previous call may have saved. */
  ghost predicate Resumable<W>(ps: seq<Proc<W>>, cur: Option<Cursor>) {
    cur.Some? ==> && cur.value.breakCurrent.None?
                  && (Named(cur.value) ==> exists i :: 0 <= i < |ps| && ps[i].name == cur.value.name.value)
  }

  /** Positions before the saved one are skipped. */
  lemma {:induction false} SkipTo<W>(ps: seq<Proc<W>>, i: nat, cur: Option<Cursor>, pre: Reply, w: W)
    requires WellNamed(ps) && Resumable(ps, cur)
    requires i <= Position(ps, cur) < |ps|
    ensures RunFrom(ps, i, cur, pre, w) == RunFrom(ps, Position(ps, cur), cur, pre, w)
    decreases |ps| - i
  {
    if i < Position(ps, cur) {
      SkipTo(ps, i + 1, cur, pre, w);
    }
  }

  /** One processor leaves the cursor at itself, at the next one, or at the end. */
  lemma OneMove<W>(ps: seq<Proc<W>>, i: nat, t: Cursor)
    requires WellNamed(ps) && i < |ps| && (t.name == Some(ps[i].name) || t.name.None?)
    ensures var after := Some(Advance(t, NextName(ps, i)));
            && Resumable(ps, after) && Position(ps, after) in {i, i + 1, |ps|}
            && (!Stops(t, NextName(ps, i)) ==> Position(ps, after) == i + 1 && i + 1 < |ps|)
  {
    assert IndexFrom(ps, 0, ps[i].name) == i;
    if i + 1 < |ps| {
      assert IndexFrom(ps, 0, ps[i + 1].name) == i + 1;
    }
  }

  /** From its saved position the loop runs a contiguous, non-empty segment. */
  lemma {:induction false} SegmentFrom<W>(ps: seq<Proc<W>>, i: nat, cur: Option<Cursor>, pre: Reply, w: W)
    requires WellNamed(ps) && Resumable(ps, cur)
    requires i == Position(ps, cur) < |ps|
    ensures var o := RunFrom(ps, i, cur, pre, w);
            && |o.ran| > 0 && i + |o.ran| <= |ps| && o.ran == Range(i, i + |o.ran|)
            && (!o.thrown ==>
                  && Resumable(ps, o.cursor) && o.cursor.Some?
                  && Position(ps, o.cursor) in {i + |o.ran| - 1, i + |o.ran|, |ps|})
    decreases |ps| - i
  {
    var c := if cur.Some? then cur.value else Cursor(Some(ps[i].name), None, None);
    var e := ps[i].run(c.ctx, pre, w);
    var t := Touched(c, e);
    var next := NextName(ps, i);
    OneMove(ps, i, t);
    RangeCons(i, i + 1);
    assert Range(i + 1, i + 1) == [];
    if !e.failed && !Stops(t, next) {
      SegmentFrom(ps, i + 1, Some(Advance(t, next)), e.reply, e.world);
      var rest := RunFrom(ps, i + 1, Some(Advance(t, next)), e.reply, e.world);
      RangeCons(i, i + 1 + |rest.ran|);
    }
  }

  /**
   * Each call runs one contiguous segment that starts at the saved position and
   * is empty only after `end`; the saved position never moves backwards, and it
   * names the last processor that ran, the one after it, or the end.
   */
  lemma OneSegment<W>(ps: seq<Proc<W>>, cur: Option<Cursor>, response: Json, w: W)
    requires WellNamed(ps) && Resumable(ps, cur)
    ensures var o := Run(ps, cur, response, w);
            var p := Position(ps, cur);
            var q := p + |o.ran|;
            && q <= |ps| && o.ran == Range(p, q)
            && (o.ran == [] <==> p == |ps|)
            && (!o.thrown ==> Resumable(ps, o.cursor) && o.cursor.Some? && p <= Position(ps, o.cursor))
            && (!o.thrown && p < |ps| ==> Position(ps, o.cursor) in {q - 1, q, |ps|})
            && (p == |ps| ==> o == Outcome([], cur, Done(response), w, false))
  {
    if cur.None? || Named(cur.value) {
      var p := Position(ps, cur);
      SkipTo(ps, 0, cur, Done(response), w);
      SegmentFrom(ps, p, cur, Done(response), w);
    }
  }

  /** All processors run by successive calls; every call sees any response and any world. */
  function Trace<W>(ps: seq<Proc<W>>, cur: Option<Cursor>, calls: seq<(Json, W)>): seq<nat>
    decreases |calls|
  {
    if calls == [] then []
    else
      var o := Run(ps, cur, calls[0].0, calls[0].1);
      o.ran + if o.thrown then [] else Trace(ps, o.cursor, calls[1..])
  }

  /** Drop every element equal to the one before it. */
  function Collapse(t: seq<nat>): seq<nat> {
    if |t| < 2 then t
    else if t[0] == t[1] then Collapse(t[1..])
    else [t[0]] + Collapse(t[1..])
  }

  /** Each element repeats the one before it or is its successor. */
  ghost predicate Stair(t: seq<nat>) {
    forall i, j :: 0 <= i && j == i + 1 && j < |t| ==> t[j] == t[i] || t[j] == t[i] + 1
  }

  lemma RangeCons(lo: nat, hi: nat)
    requires lo < hi
    ensures Range(lo, hi) == [lo] + Range(lo + 1, hi)
  {}

  lemma StairTail(t: seq<nat>)
    requires Stair(t) && |t| > 1
    ensures Stair(t[1..]) && (t[1] == t[0] || t[1] == t[0] + 1)
  {
    var rest := t[1..];
    forall i, j | 0 <= i && j == i + 1 && j < |rest|
      ensures rest[j] == rest[i] || rest[j] == rest[i] + 1
    {
      assert rest[i] == t[j] && rest[j] == t[j + 1];
    }
  }

  lemma {:induction false} CollapseStair(t: seq<nat>, lo: nat, hi: nat)
    requires Stair(t) && t != [] && t[0] == lo && t[|t| - 1] == hi
    ensures lo <= hi && Collapse(t) == Range(lo, hi + 1)
  {
    if |t| == 1 {
      assert Range(lo, lo + 1) == [lo] == t;
    } else {
      StairTail(t);
      CollapseStair(t[1..], t[1], hi);
      if t[1] != lo {
        RangeCons(lo, hi + 1);
      }
    }
  }

  lemma {:induction false} TraceIsStair<W>(ps: seq<Proc<W>>, cur: Option<Cursor>, calls: seq<(Json, W)>)
    requires WellNamed(ps) && Resumable(ps, cur)
    ensures var t := Trace(ps, cur, calls);
            Stair(t) && (t != [] ==> t[0] == Position(ps, cur)) && (forall k :: 0 <= k < |t| ==> t[k] < |ps|)
    decreases |calls|
  {
    if calls != [] {
      OneSegment(ps, cur, calls[0].0, calls[0].1);
      var o := Run(ps, cur, calls[0].0, calls[0].1);
      if !o.thrown {
        TraceIsStair(ps, o.cursor, calls[1..]);
        var rest := Trace(ps, o.cursor, calls[1..]);
        assert Trace(ps, cur, calls) == o.ran + rest;
      } else {
        assert Trace(ps, cur, calls) == o.ran;
      }
    }
  }

  /**
   * Over any number of calls, with any responses and any change of the world
   * between them, the processors run are a prefix of the list in order: only a
   * processor that is re-entered appears again, right after itself.
   */
  lemma SegmentsJoinToPrefix<W>(ps: seq<Proc<W>>, calls: seq<(Json, W)>)
    requires WellNamed(ps)
    ensures var t := Trace(ps, None, calls);
            t != [] ==> t[|t| - 1] < |ps| && Collapse(t) == Range(0, t[|t| - 1] + 1)
  {
    TraceIsStair(ps, None, calls);
    var t := Trace(ps, None, calls);
    if t != [] {
      CollapseStair(t, 0, t[|t| - 1]);
    }
  }
}
