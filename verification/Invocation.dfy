/**
 * One endpoint invocation: the seven processors of the chain in their injected
 * order (src/invoke/invoke.module.ts, src/invoke/chain/), and the life of an
 * invocation over any number of calls.
 */
module Invocation {
  import opened Common
  import opened SepChain
  import opened Cached
  import InvokeKeys

  datatype AuthResult = Passed | Suspended(resumeFunName: string) | Rejected

  /**
   * Everything outside the model that one call of the chain may ask, once each:
   * the cache-key script (`None` when it throws), the auth function of a given
   * name, the adaptor (`None` when it throws), its postprocessing, and the clock.
   */
  datatype Oracle = Oracle(
    cacheKey: Option<string>,
    auth: string -> AuthResult,
    adaptor: Option<Reply>,
    post: Json -> Option<Json>,
    now: int)

  /** Who invokes which endpoint. */
  datatype Site = Site(invokeId: string, eventId: string, sepId: string, ep: Endpoint)

  /** What the processors of one invocation did to the outside, in order. */
  datatype Stage = Invoked | Postprocessed | Stored | CallbackPostprocessed | Resolved

  /** The cache, the resumes it triggered, and the invocation's own fields. */
  datatype Ctx = Ctx(table: Table, resumed: seq<Note>, cacheKey: string, cacheTtl: int, log: seq<Stage>)

  const AUTH := "InvokeAuth"
  const CACHED := "InvokeCached"
  const INVOKE := "InvokeSep"
  const POSTPROCESS := "InvokePostprocess"
  const CACHE := "InvokeCache"
  const CALLBACK_POSTPROCESS := "CallbackPostprocess"
  const CALLBACK := "InvokeCallback"

  function Go(w: Ctx, reply: Reply, ctx: Option<string>): Effect<Ctx> {
    Effect(w, reply, false, None, ctx, false)
  }

  function Fail(w: Ctx): Effect<Ctx> {
    Effect(w, Missing, false, None, None, true)
  }

  function AuthFun(ctx: Option<string>): string {
    if ctx.None? || ctx.value == "" then "checkSepAuth" else ctx.value
  }

  function SepAuth(o: Oracle, ctx: Option<string>, w: Ctx): Effect<Ctx> {
    match o.auth(AuthFun(ctx))
    case Rejected => Fail(w)
    case Suspended(f) => if f == "" then Go(w, Missing, ctx) else Effect(w, Pending, false, Some(true), Some(f), false)
    case Passed => Go(w, Missing, ctx)
  }

  function Lookup(o: Oracle, s: Site, t: Table): Probe
    requires o.cacheKey.Some?
  {
    FromCachedSpec(t, s.ep, Key(s.sepId, o.cacheKey.value), InvokeKeys.Compose(s.invokeId, s.eventId), o.now)
  }

  function AfterLookup(w: Ctx, p: Probe): Ctx {
    if p.cacheKey == "" then w.(table := p.table)
    else w.(table := p.table, cacheKey := p.cacheKey, cacheTtl := p.cacheTtl)
  }

  function SepCached(o: Oracle, s: Site, ctx: Option<string>, w: Ctx): Effect<Ctx> {
    if o.cacheKey.None? then Fail(w)
    else
      var p := Lookup(o, s, w.table);
      if p.response.None? then Go(AfterLookup(w, p), Missing, ctx)
      else Effect(AfterLookup(w, p), p.response.value, true, None, ctx, false)
  }

  function SepInvoke(o: Oracle, ctx: Option<string>, w: Ctx): Effect<Ctx> {
    var w' := w.(log := w.log + [Invoked]);
    if o.adaptor.None? then Fail(w') else Go(w', o.adaptor.value, ctx)
  }

  /** Skipped for a pending reply; reading the fields of a missing reply throws. */
  function SepPostprocess(o: Oracle, stage: Stage, ctx: Option<string>, pre: Reply, w: Ctx): Effect<Ctx> {
    match pre
    case Missing => Fail(w)
    case Pending => Go(w, pre, ctx)
    case Done(raw) =>
      var w' := w.(log := w.log + [stage]);
      if o.post(raw).None? then Fail(w') else Go(w', Done(o.post(raw).value), ctx)
  }

  function SepCache(o: Oracle, s: Site, ctx: Option<string>, pre: Reply, w: Ctx): Effect<Ctx> {
    var t := ToCacheSpec(w.table, Key(s.sepId, w.cacheKey), w.cacheTtl, pre, s.ep, s.eventId, o.now);
    if t.None? then Fail(w)
    else
      var w' := w.(table := t.value, log := w.log + [Stored]);
      if pre.Pending? then Effect(w', pre, false, Some(false), ctx, false)
      else Effect(w', pre, true, None, ctx, false)
  }

  function SepCallback(s: Site, ctx: Option<string>, pre: Reply, w: Ctx): Effect<Ctx> {
    var (t, notes) := UpdateCacheSpec(w.table, Key(s.sepId, w.cacheKey), w.cacheTtl, pre, s.ep);
    Go(w.(table := t, resumed := w.resumed + notes, log := w.log + [Resolved]), pre, ctx)
  }

  /** The injected list of processors. */
  function Processors(o: Oracle, s: Site): seq<Proc<Ctx>> {
    [ Proc(AUTH, (c, pre, w) => SepAuth(o, c, w)),
      Proc(CACHED, (c, pre, w) => SepCached(o, s, c, w)),
      Proc(INVOKE, (c, pre, w) => SepInvoke(o, c, w)),
      Proc(POSTPROCESS, (c, pre, w) => SepPostprocess(o, Postprocessed, c, pre, w)),
      Proc(CACHE, (c, pre, w) => SepCache(o, s, c, pre, w)),
      Proc(CALLBACK_POSTPROCESS, (c, pre, w) => SepPostprocess(o, CallbackPostprocessed, c, pre, w)),
      Proc(CALLBACK, (c, pre, w) => SepCallback(s, c, pre, w)) ]
  }

  lemma NamesDiffer()
    ensures |AUTH| == 10 && |CACHED| == 12 && |INVOKE| == 9 && |POSTPROCESS| == 17
    ensures |CACHE| == 11 && |CALLBACK_POSTPROCESS| == 19 && |CALLBACK| == 14
  {}

  /** The processors are what the chain's own properties ask for. */
  lemma ProcessorsWellNamed(o: Oracle, s: Site)
    ensures WellNamed(Processors(o, s))
  {
    NamesDiffer();
  }

  // ------------------------------------------------- what a call comes down to

  /**
   * A call seen by the invoke service: it threw, it is held for a callback (the
   * invocation is kept), or it replied (the invocation is removed).
   */
  datatype Result = Threw(world: Ctx) | Held(cursor: Cursor, world: Ctx) | Replied(reply: Reply, world: Ctx)

  function Summary(o: Outcome<Ctx>): Result {
    if o.thrown then Threw(o.world)
    else if o.reply.Pending? then Held(if o.cursor.Some? then o.cursor.value else Cursor(None, None, None), o.world)
    else Replied(o.reply, o.world)
  }

  function Call(o: Oracle, s: Site, cur: Option<Cursor>, response: Json, w: Ctx): Result {
    Summary(Run(Processors(o, s), cur, response, w))
  }

  /** First call, or re-entry after an auth suspension. */
  function FirstPass(o: Oracle, s: Site, ctx: Option<string>, w: Ctx): Result {
    match o.auth(AuthFun(ctx))
    case Rejected => Threw(w)
    case Suspended(f) =>
      if f == "" then AfterAuth(o, s, ctx, w) else Held(Cursor(Some(AUTH), Some(f), None), w)
    case Passed => AfterAuth(o, s, ctx, w)
  }

  function AfterAuth(o: Oracle, s: Site, ctx: Option<string>, w: Ctx): Result {
    if o.cacheKey.None? then Threw(w)
    else
      var p := Lookup(o, s, w.table);
      var w1 := AfterLookup(w, p);
      match p.response
      case Some(Pending) => Held(Cursor(None, ctx, None), w1)
      case Some(r) => Replied(r, w1)
      case None => AfterMiss(o, s, ctx, w1.(log := w1.log + [Invoked]))
  }

  /** The adaptor is asked; its reply is postprocessed unless pending, then stored. */
  function AfterMiss(o: Oracle, s: Site, ctx: Option<string>, w: Ctx): Result {
    match o.adaptor
    case None => Threw(w)
    case Some(Missing) => Threw(w)
    case Some(Pending) =>
      var t := ToCacheSpec(w.table, Key(s.sepId, w.cacheKey), w.cacheTtl, Pending, s.ep, s.eventId, o.now);
      if t.None? then Threw(w)
      else Held(Cursor(Some(CALLBACK_POSTPROCESS), ctx, None), w.(table := t.value, log := w.log + [Stored]))
    case Some(Done(raw)) =>
      var w1 := w.(log := w.log + [Postprocessed]);
      if o.post(raw).None? then Threw(w1)
      else
        var r := Done(o.post(raw).value);
        var t := ToCacheSpec(w1.table, Key(s.sepId, w1.cacheKey), w1.cacheTtl, r, s.ep, s.eventId, o.now);
        if t.None? then Threw(w1)
        else Replied(r, w1.(table := t.value, log := w1.log + [Stored]))
  }

  /** The callback of an endpoint that answered with a pending marker. */
  function CallbackPass(o: Oracle, s: Site, response: Json, w: Ctx): Result {
    var w1 := w.(log := w.log + [CallbackPostprocessed]);
    if o.post(response).None? then Threw(w1)
    else
      var r := Done(o.post(response).value);
      var (t, notes) := UpdateCacheSpec(w1.table, Key(s.sepId, w1.cacheKey), w1.cacheTtl, r, s.ep);
      Replied(r, w1.(table := t, resumed := w1.resumed + notes, log := w1.log + [Resolved]))
  }

  predicate AtAuth(cur: Option<Cursor>) {
    cur.Some? ==> cur.value.name == Some(AUTH) && cur.value.breakCurrent.None?
  }

  function SavedCtx(cur: Option<Cursor>): Option<string> {
    if cur.None? then None else cur.value.ctx
  }

  lemma FirstPassTail(o: Oracle, s: Site, cur: Option<Cursor>, ctx: Option<string>, pre: Reply, w: Ctx)
    requires cur == Some(Cursor(Some(POSTPROCESS), ctx, None))
    requires o.adaptor == Some(pre)
    ensures Summary(RunFrom(Processors(o, s), 3, cur, pre, w)) == AfterMiss(o, s, ctx, w)
  {
    var ps := Processors(o, s);
    NamesDiffer();
    var e := SepPostprocess(o, Postprocessed, ctx, pre, w);
    if !e.failed {
      var cur' := Some(Cursor(Some(CACHE), ctx, None));
      assert RunFrom(ps, 3, cur, pre, w) == Prepend([3], RunFrom(ps, 4, cur', e.reply, e.world));
      var e4 := SepCache(o, s, ctx, e.reply, e.world);
      assert ps[4].run(ctx, e.reply, e.world) == e4;
      assert NextName(ps, 4) == Some(CALLBACK_POSTPROCESS);
      assert RunFrom(ps, 4, cur', e.reply, e.world).ran == [4];
    }
  }

  lemma FirstPassFromInvoke(o: Oracle, s: Site, ctx: Option<string>, w: Ctx)
    ensures Summary(RunFrom(Processors(o, s), 2, Some(Cursor(Some(INVOKE), ctx, None)), Missing, w)) ==
            AfterMiss(o, s, ctx, w.(log := w.log + [Invoked]))
  {
    var ps := Processors(o, s);
    NamesDiffer();
    var e := SepInvoke(o, ctx, w);
    assert ps[2].run(ctx, Missing, w) == e;
    if !e.failed {
      var cur := Some(Cursor(Some(POSTPROCESS), ctx, None));
      assert RunFrom(ps, 2, Some(Cursor(Some(INVOKE), ctx, None)), Missing, w) == Prepend([2], RunFrom(ps, 3, cur, e.reply, e.world));
      FirstPassTail(o, s, cur, ctx, e.reply, e.world);
    }
  }

  lemma FirstPassFromCached(o: Oracle, s: Site, ctx: Option<string>, w: Ctx)
    ensures Summary(RunFrom(Processors(o, s), 1, Some(Cursor(Some(CACHED), ctx, None)), Missing, w)) == AfterAuth(o, s, ctx, w)
  {
    var ps := Processors(o, s);
    NamesDiffer();
    var e := SepCached(o, s, ctx, w);
    assert ps[1].run(ctx, Missing, w) == e;
    if !e.failed && !e.ended {
      var cur := Some(Cursor(Some(INVOKE), ctx, None));
      assert RunFrom(ps, 1, Some(Cursor(Some(CACHED), ctx, None)), Missing, w) == Prepend([1], RunFrom(ps, 2, cur, Missing, e.world));
      FirstPassFromInvoke(o, s, ctx, e.world);
    }
  }

  /** A first call and every call that re-enters authentication. */
  lemma FirstPassIs(o: Oracle, s: Site, cur: Option<Cursor>, response: Json, w: Ctx)
    requires AtAuth(cur)
    ensures Call(o, s, cur, response, w) == FirstPass(o, s, SavedCtx(cur), w)
  {
    var ps := Processors(o, s);
    NamesDiffer();
    var ctx := SavedCtx(cur);
    var e := SepAuth(o, ctx, w);
    assert ps[0].run(ctx, Done(response), w) == e;
    if !e.failed && e.brk.None? {
      var cur1 := Some(Cursor(Some(CACHED), ctx, None));
      assert Run(ps, cur, response, w) == Prepend([0], RunFrom(ps, 1, cur1, Missing, w));
      FirstPassFromCached(o, s, ctx, w);
    }
  }

  /** The call that an endpoint's callback makes. */
  lemma CallbackPassIs(o: Oracle, s: Site, cur: Cursor, response: Json, w: Ctx)
    requires cur.name == Some(CALLBACK_POSTPROCESS) && cur.breakCurrent.None?
    ensures Call(o, s, Some(cur), response, w) == CallbackPass(o, s, response, w)
  {
    var ps := Processors(o, s);
    NamesDiffer();
    ProcessorsWellNamed(o, s);
    assert ps[5].name == CALLBACK_POSTPROCESS;
    SkipTo(ps, 0, Some(cur), Done(response), w);
    assert Position(ps, Some(cur)) == 5;
    var e := SepPostprocess(o, CallbackPostprocessed, cur.ctx, Done(response), w);
    assert ps[5].run(cur.ctx, Done(response), w) == e;
    if !e.failed {
      var cur' := Some(Cursor(Some(CALLBACK), cur.ctx, None));
      assert RunFrom(ps, 5, Some(cur), Done(response), w) == Prepend([5], RunFrom(ps, 6, cur', e.reply, e.world));
      assert ps[6].run(cur.ctx, e.reply, e.world) == SepCallback(s, cur.ctx, e.reply, e.world);
    }
  }

  /** An invocation whose chain has ended hands the notified response through. */
  lemma EndedPassIs(o: Oracle, s: Site, cur: Cursor, response: Json, w: Ctx)
    requires cur.name.None?
    ensures Call(o, s, Some(cur), response, w) == Replied(Done(response), w)
  {}

  // ---------------------------------------------------- life of an invocation

  /**
   * A later call of the chain: the outside answers, the callback response, and
   * the cache as other invocations have left it by then.
   */
  datatype Turn = Turn(o: Oracle, response: Json, table: Table, resumed: seq<Note>)

  /** An invocation is waiting for its next call, or over. */
  datatype Life = Waiting(cursor: Option<Cursor>, world: Ctx) | Over(result: Result, last: Turn)

  function Live(s: Site, l: Life, turns: seq<Turn>): Life
    decreases |turns|
  {
    if turns == [] || l.Over? then l else Live(s, Next(s, l, turns[0]), turns[1..])
  }

  function Next(s: Site, l: Life, t: Turn): Life
    requires l.Waiting?
  {
    var r := Call(t.o, s, l.cursor, t.response, l.world.(table := t.table, resumed := t.resumed));
    if r.Held? then Waiting(Some(r.cursor), r.world) else Over(r, t)
  }

  const Born := Waiting(None, Ctx(map[], [], "", 0, []))

  /** What an invocation has done so far, by where it waits or how it ended. */
  ghost predicate Orderly(l: Life) {
    match l
    case Waiting(cur, w) =>
      || (AtAuth(cur) && w.log == [])
      || (cur.Some? && cur.value.name.None? && w.log == [])
      || (&& cur.Some? && cur.value.name == Some(CALLBACK_POSTPROCESS) && cur.value.breakCurrent.None?
          && w.log == [Invoked, Stored])
    case Over(Threw(w), _) => w.log in {[], [Invoked], [Invoked, Postprocessed], [Invoked, Stored, CallbackPostprocessed]}
    case Over(Replied(r, w), t) =>
      || w.log == []
      || (&& w.log == [Invoked, Postprocessed, Stored]
          && exists raw :: t.o.adaptor == Some(Done(raw)) && t.o.post(raw).Some? && r == Done(t.o.post(raw).value))
      || (&& w.log == [Invoked, Stored, CallbackPostprocessed, Resolved]
          && t.o.post(t.response).Some? && r == Done(t.o.post(t.response).value))
    case Over(Held(_, _), _) => false
  }

  lemma AfterMissIsOrderly(o: Oracle, s: Site, ctx: Option<string>, w: Ctx)
    requires w.log == [Invoked]
    ensures match AfterMiss(o, s, ctx, w)
            case Threw(w') => w'.log in {[Invoked], [Invoked, Postprocessed]}
            case Held(cur, w') => cur.name == Some(CALLBACK_POSTPROCESS) && cur.breakCurrent.None? && w'.log == [Invoked, Stored]
            case Replied(r, w') =>
              && w'.log == [Invoked, Postprocessed, Stored]
              && o.adaptor.Some? && o.adaptor.value.Done? && o.post(o.adaptor.value.data).Some?
              && r == Done(o.post(o.adaptor.value.data).value)
  {
    assert [Invoked] + [Postprocessed] == [Invoked, Postprocessed];
    assert [Invoked, Postprocessed] + [Stored] == [Invoked, Postprocessed, Stored];
    assert [Invoked] + [Stored] == [Invoked, Stored];
  }

  lemma NextIsOrderly(s: Site, l: Life, t: Turn)
    requires l.Waiting? && Orderly(l)
    ensures Orderly(Next(s, l, t))
  {
    var w := l.world.(table := t.table, resumed := t.resumed);
    if AtAuth(l.cursor) {
      FirstPassIs(t.o, s, l.cursor, t.response, w);
      if t.o.cacheKey.Some? {
        var w1 := AfterLookup(w, Lookup(t.o, s, w.table));
        assert w1.log + [Invoked] == [Invoked];
        AfterMissIsOrderly(t.o, s, SavedCtx(l.cursor), w1.(log := w1.log + [Invoked]));
      }
    } else if l.cursor.value.name.None? {
      EndedPassIs(t.o, s, l.cursor.value, t.response, w);
    } else {
      CallbackPassIs(t.o, s, l.cursor.value, t.response, w);
      assert w.log + [CallbackPostprocessed] == [Invoked, Stored, CallbackPostprocessed];
    }
  }

  lemma {:induction false} LiveIsOrderly(s: Site, l: Life, turns: seq<Turn>)
    requires Orderly(l)
    ensures Orderly(Live(s, l, turns))
    decreases |turns|
  {
    if turns != [] && l.Waiting? {
      NextIsOrderly(s, l, turns[0]);
      LiveIsOrderly(s, Next(s, l, turns[0]), turns[1..]);
    }
  }

  function LogOf(l: Life): seq<Stage> {
    if l.Waiting? then l.world.log else l.result.world.log
  }

  /**
   * However often authentication suspends it and whatever happens to the cache
   * in between: an invocation asks its adaptor at most once; when it completes
   * after asking, it was postprocessed exactly once, in the first pass if the
   * adaptor answered at once and in the callback pass if not; and the two
   * callback processors act only for an answer that came by callback.
   */
  lemma Lifetime(s: Site, turns: seq<Turn>)
    ensures var l := Live(s, Born, turns);
            var log := LogOf(l);
            var n := multiset(log);
            && Orderly(l)
            && n[Invoked] <= 1
            && n[Postprocessed] + n[CallbackPostprocessed] <= 1
            && (l.Over? && l.result.Replied? && Invoked in log ==> n[Postprocessed] + n[CallbackPostprocessed] == 1)
            && (CallbackPostprocessed in log || Resolved in log ==> log[..2] == [Invoked, Stored])
            && (Postprocessed in log ==> CallbackPostprocessed !in log && Resolved !in log)
            && (l.Over? && l.result.Replied? && Postprocessed in log ==> l.last.o.adaptor != Some(Pending))
  {
    LiveIsOrderly(s, Born, turns);
    var log := LogOf(Live(s, Born, turns));
    assert [Invoked, Stored, CallbackPostprocessed][..2] == [Invoked, Stored];
    assert [Invoked, Stored, CallbackPostprocessed, Resolved][..2] == [Invoked, Stored];
    assert log in {[], [Invoked], [Invoked, Stored], [Invoked, Postprocessed], [Invoked, Postprocessed, Stored],
                   [Invoked, Stored, CallbackPostprocessed], [Invoked, Stored, CallbackPostprocessed, Resolved]};
  }

  /** Authentication that suspends `turns` times in a row keeps the invocation at its first processor. */
  lemma {:induction false} AuthMayRepeat(s: Site, l: Life, turns: seq<Turn>)
    requires l.Waiting? && AtAuth(l.cursor)
    requires forall t, f :: t in turns ==> t.o.auth(f).Suspended? && t.o.auth(f).resumeFunName != ""
    ensures Live(s, l, turns).Waiting? && AtAuth(Live(s, l, turns).cursor)
    ensures LogOf(Live(s, l, turns)) == LogOf(l)
    decreases |turns|
  {
    if turns != [] {
      var t := turns[0];
      assert t.o.auth(AuthFun(SavedCtx(l.cursor))).Suspended?;
      FirstPassIs(t.o, s, l.cursor, t.response, l.world.(table := t.table, resumed := t.resumed));
      AuthMayRepeat(s, Next(s, l, t), turns[1..]);
    }
  }
}
