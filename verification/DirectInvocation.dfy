/**
 * A direct endpoint invocation as the services run it, updating the event's
 * context in place: `_invokeSEP`, `setCallbackResponse` and `invokeSEPsCallback`
 * of src/invoke/invoke.service.ts inside `runAndFix` and `runAndFixCallback` of
 * src/invoke/script-runner.service.ts.
 */
module DirectInvocation {
  import opened Common
  import opened SepChain
  import opened Cached
  import opened Invocation
  import opened Coalescing

  /** An entry of `context.invocations`. */
  datatype Entry = Entry(processor: Option<Cursor>, response: Json, cacheKey: string, cacheTtl: int, log: seq<Stage>)

  const NewEntry := Entry(None, Undefined, "", 0, [])

  function StepOf(o: Oracle, s: Site, e: Entry, t: Table): Result {
    Call(o, s, e.processor, e.response, Ctx(t, [], e.cacheKey, e.cacheTtl, e.log))
  }

  class Task {
    var invocations: map<string, Entry>
    var resp: Option<Json>
    var status: Status
    var table: Table
    var resumed: seq<Note>

    constructor (table: Table)
      ensures invocations == map[] && resp.None? && this.table == table && resumed == []
    {
      invocations, resp, status, this.table, resumed := map[], None, Status.Waiting, table, [];
    }

    /** Run the chain for one invocation; its entry stays only while the reply is pending. */
    method InvokeSEP(o: Oracle, s: Site) returns (r: Result)
      modifies this`invocations, this`table, this`resumed
      ensures var e := if s.invokeId in old(invocations) then old(invocations)[s.invokeId] else NewEntry;
              && r == StepOf(o, s, e, old(table))
              && table == r.world.table && resumed == old(resumed) + r.world.resumed
              && invocations == if r.Held?
                   then old(invocations)[s.invokeId :=
                          Entry(Some(r.cursor), e.response, r.world.cacheKey, r.world.cacheTtl, r.world.log)]
                   else old(invocations) - {s.invokeId}
    {
      if s.invokeId !in invocations {
        invocations := invocations[s.invokeId := NewEntry];
      }
      var e := invocations[s.invokeId];
      var status := new InvokeStatus(e.processor, e.response);
      var w := Ctx(table, [], e.cacheKey, e.cacheTtl, e.log);
      var reply, w', threw, ran := status.Chain(Processors(o, s), w);
      table, resumed := w'.table, resumed + w'.resumed;
      if !threw && reply.Pending? {
        var cursor := if status.processor.Some? then status.processor.value else Cursor(None, None, None);
        invocations := invocations[s.invokeId := Entry(Some(cursor), e.response, w'.cacheKey, w'.cacheTtl, w'.log)];
        return Held(cursor, w');
      }
      invocations := invocations - {s.invokeId};
      return if threw then Threw(w') else Replied(reply, w');
    }

    /** Leave the callback's response on the invocation; it must be there. */
    method SetCallbackResponse(invokeId: string, response: Json) returns (found: bool)
      modifies this`invocations
      ensures found <==> invokeId in old(invocations)
      ensures invocations == if found then old(invocations)[invokeId := old(invocations)[invokeId].(response := response)]
                             else old(invocations)
    {
      found := invokeId in invocations;
      if found {
        invocations := invocations[invokeId := invocations[invokeId].(response := response)];
      }
    }

    /** What the protocol between events sees of this task. */
    function AsEvent(sepId: string): Event
      reads this
    {
      var inv := if "" in invocations && invocations[""].processor.Some?
                 then var e := invocations[""]; Some(Inv(e.processor.value, e.cacheKey, e.cacheTtl, e.log)) else None;
      Event(sepId, status, inv, resp)
    }

    /** `runAndFix`: a reply is recorded, a pending one suspends the event, anything else fails it. */
    method RunAndFix(cat: Catalog, id: string, sepId: string, o: Oracle)
      requires invocations == map[] && resp.None?
      modifies this
      ensures var r := StepOf(o, SiteOf(cat, id, sepId), NewEntry, old(table));
              AsEvent(sepId) == AfterFirst(sepId, r) && table == r.world.table && resumed == old(resumed) + r.world.resumed
      ensures var passes := AuthPasses(o, "checkSepAuth");
              && (status.Processed? <==> passes && exists d :: Obtains(cat, old(table), sepId, o, Done(d)))
              && (status.Processed? ==> resp.Some? && Obtains(cat, old(table), sepId, o, Done(resp.value)))
              && (!status.Processed? ==> resp.None?)
              && (status.Waiting? <==> (o.auth("checkSepAuth").Suspended? && !passes)
                                       || (passes && Obtains(cat, old(table), sepId, o, Pending)))
    {
      FirstPassEnds(cat, SiteOf(cat, id, sepId), o, None, Undefined, Ctx(table, [], "", 0, []));
      var r := InvokeSEP(o, SiteOf(cat, id, sepId));
      if r.Threw? {
        status := Failed;
      } else if r.Held? {
        status := Status.Waiting;
      } else if r.reply.Done? {
        resp := Some(r.reply.data);
        status := Processed;
      } else {
        status := Failed;
      }
    }

    /** A resume: the response is set, then `runAndFixCallback` runs; a second pending reply is an error. */
    method ResumeWith(cat: Catalog, id: string, sepId: string, response: Json, o: Oracle) returns (found: bool)
      requires "" in invocations ==> invocations[""].processor.Some?
      modifies this
      ensures found <==> "" in old(invocations)
      ensures !found ==> invocations == old(invocations) && table == old(table) && status == old(status) && resp == old(resp)
      ensures found ==>
        var r := StepOf(o, SiteOf(cat, id, sepId), old(invocations)[""].(response := response), old(table));
        AsEvent(sepId) == AfterResume(old(AsEvent(sepId)), r)
        && table == r.world.table && resumed == old(resumed) + r.world.resumed
    {
      found := SetCallbackResponse("", response);
      if !found {
        return;
      }
      var r := InvokeSEP(o, SiteOf(cat, id, sepId));
      if r.Replied? && r.reply.Done? {
        resp := Some(r.reply.data);
      }
      status := Failed; // the handler reads the status of an undefined or refused result
    }
  }

  /** The protocol's steps are what these methods do. */
  lemma StepsAreTheProtocols(cat: Catalog, s: Sys, id: string, sepId: string, response: Json, o: Oracle)
    ensures FirstResult(cat, s, id, sepId, o) == StepOf(o, SiteOf(cat, id, sepId), NewEntry, s.table)
    ensures CanResume(s, id) ==>
      var ev := s.events[id];
      var e := Entry(Some(ev.inv.value.cursor), response, ev.inv.value.cacheKey, ev.inv.value.cacheTtl, ev.inv.value.log);
      ResumeResult(cat, s, id, response, o) == StepOf(o, SiteOf(cat, id, ev.sepId), e, s.table)
  {}
}
