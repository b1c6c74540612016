/**
 * Which listeners an event meets and in which order, on emission and on resume
 * (loadListeners and resumeListeners of src/event-listeners/event-listeners.service.ts).
 */
module ListenerOrder {
  import opened Common

  datatype Listener = Listener(
    id: string, srcId: string, eventType: string, dataType: string, priority: Option<int>,
    funName: string, callgent: bool, deletedAt: int)

  datatype Route = Route(srcId: string, eventType: string, dataType: string)

  predicate Matches(l: Listener, r: Route) {
    && (l.srcId == r.srcId || l.srcId == "*")
    && (l.eventType == r.eventType || l.eventType == "*")
    && (l.dataType == r.dataType || l.dataType == "*")
  }

  /** Soft deletion stamps a row; queries see only unstamped rows unless asked. */
  predicate Visible(l: Listener, deleted: bool) {
    if deleted then l.deletedAt >= 0 else l.deletedAt == 0
  }

  function Filter<T(!new)>(s: seq<T>, p: T -> bool): (r: seq<T>)
    ensures forall x :: x in r <==> x in s && p(x)
  {
    if s == [] then [] else if p(s[0]) then [s[0]] + Filter(s[1..], p) else Filter(s[1..], p)
  }

  /** An absent priority counts as zero. */
  function Priority(l: Listener): int {
    if l.priority.None? then 0 else l.priority.value
  }

  function Generality(l: Listener): int {
    if l.srcId == "*" then -1 else 1
  }

  /** The comparator: priority first, then listeners of any source before those of one. */
  function Diff(a: Listener, b: Listener): int {
    if Priority(a) != Priority(b) then Priority(a) - Priority(b) else Generality(a) - Generality(b)
  }

  predicate Sorted(s: seq<Listener>) {
    forall i, j :: 0 <= i < j < |s| ==> Diff(s[i], s[j]) <= 0
  }

  /** Lower priorities come first, none counting as zero; among equal ones, listeners of any source before those of one. */
  ghost predicate InOrder(s: seq<Listener>) {
    forall i, j :: 0 <= i < j < |s| ==>
      var p := if s[i].priority.Some? then s[i].priority.value else 0;
      var q := if s[j].priority.Some? then s[j].priority.value else 0;
      p <= q && (p == q && s[j].srcId == "*" ==> s[i].srcId == "*")
  }

  lemma SortedIsInOrder(s: seq<Listener>)
    ensures Sorted(s) <==> InOrder(s)
  {}

  /** No two listeners of the list tie. */
  predicate Strict(s: seq<Listener>) {
    forall i, j :: 0 <= i < j < |s| ==> Diff(s[i], s[j]) != 0
  }

  /** The comparator is a total preorder, and its two directions agree. */
  lemma DiffIsTotalPreorder(a: Listener, b: Listener, c: Listener)
    ensures Diff(a, a) == 0
    ensures Diff(a, b) == -Diff(b, a)
    ensures Diff(a, b) <= 0 && Diff(b, c) <= 0 ==> Diff(a, c) <= 0
    ensures Diff(a, b) == 0 <==> Priority(a) == Priority(b) && (a.srcId == "*" <==> b.srcId == "*")
  {}

  /** The platform's sort is stable: an element goes before the first one it does not exceed. */
  function Insert(x: Listener, s: seq<Listener>): seq<Listener> {
    if s == [] || Diff(x, s[0]) <= 0 then [x] + s else [s[0]] + Insert(x, s[1..])
  }

  function Sort(s: seq<Listener>): seq<Listener> {
    if s == [] then [] else Insert(s[0], Sort(s[1..]))
  }

  lemma ConsSorted(x: Listener, s: seq<Listener>)
    requires Sorted(s) && forall y :: y in s ==> Diff(x, y) <= 0
    ensures Sorted([x] + s)
  {}

  lemma {:induction false} InsertPermutes(x: Listener, s: seq<Listener>)
    ensures multiset(Insert(x, s)) == multiset{x} + multiset(s)
  {
    if s != [] {
      assert s == [s[0]] + s[1..];
      if Diff(x, s[0]) > 0 {
        InsertPermutes(x, s[1..]);
      }
    }
  }

  lemma {:induction false} InsertSorts(x: Listener, s: seq<Listener>)
    requires Sorted(s)
    ensures Sorted(Insert(x, s))
  {
    if s != [] {
      if Diff(x, s[0]) <= 0 {
        forall y | y in s
          ensures Diff(x, y) <= 0
        {
          HeadIsLeast(s, y);
          DiffIsTotalPreorder(x, s[0], y);
        }
        ConsSorted(x, s);
      } else {
        var t := Insert(x, s[1..]);
        TailOrder(s);
        InsertSorts(x, s[1..]);
        InsertPermutes(x, s[1..]);
        forall y | y in t
          ensures Diff(s[0], y) <= 0
        {
          assert y in multiset(t);
          if y != x {
            assert y in s[1..];
            HeadIsLeast(s, y);
          }
        }
        ConsSorted(s[0], t);
      }
    }
  }

  lemma {:induction false} SortSorts(s: seq<Listener>)
    ensures Sorted(Sort(s)) && multiset(Sort(s)) == multiset(s)
  {
    if s != [] {
      SortSorts(s[1..]);
      InsertSorts(s[0], Sort(s[1..]));
      InsertPermutes(s[0], Sort(s[1..]));
      assert s == [s[0]] + s[1..];
    }
  }

  /** The sort is stable: listeners that tie stay in the order they had. */
  lemma {:induction false} InsertIsStable(x: Listener, s: seq<Listener>, a: Listener)
    requires Sorted(s)
    ensures Ties(Insert(x, s), a) == (if Diff(a, x) == 0 then [x] else []) + Ties(s, a)
  {
    if s != [] && Diff(x, s[0]) > 0 {
      TailOrder(s);
      InsertIsStable(x, s[1..], a);
    }
  }

  /** The listeners of the list that tie with this one. */
  function Ties(s: seq<Listener>, a: Listener): seq<Listener> {
    Filter(s, (y: Listener) => Diff(a, y) == 0)
  }

  lemma {:induction false} SortIsStable(s: seq<Listener>, a: Listener)
    ensures Ties(Sort(s), a) == Ties(s, a)
  {
    if s != [] {
      SortSorts(s[1..]);
      SortIsStable(s[1..], a);
      InsertIsStable(s[0], Sort(s[1..]), a);
    }
  }

  lemma HeadIsLeast(s: seq<Listener>, x: Listener)
    requires Sorted(s) && x in s
    ensures Diff(s[0], x) <= 0
  {
    var i :| 0 <= i < |s| && s[i] == x;
    DiffIsTotalPreorder(x, x, x);
  }

  lemma SameHead(a: seq<Listener>, b: seq<Listener>)
    requires Sorted(a) && Sorted(b) && Strict(a) && a != [] && b != []
    requires a[0] in b && b[0] in a
    ensures a[0] == b[0]
  {
    HeadIsLeast(a, b[0]);
    HeadIsLeast(b, a[0]);
    var j :| 0 <= j < |a| && a[j] == b[0];
    assert j > 0 ==> Diff(a[0], a[j]) != 0;
  }

  lemma TailOrder(s: seq<Listener>)
    requires s != []
    ensures Sorted(s) ==> Sorted(s[1..])
    ensures Strict(s) ==> Strict(s[1..])
    ensures multiset(s[1..]) == multiset(s) - multiset{s[0]}
  {
    assert s == [s[0]] + s[1..];
  }

  /** Without ties, a list has one sorted order. */
  lemma {:induction false} SortedUnique(a: seq<Listener>, b: seq<Listener>)
    requires Sorted(a) && Sorted(b) && multiset(a) == multiset(b) && Strict(a)
    ensures a == b
  {
    assert |a| == |multiset(a)| && |b| == |multiset(b)|;
    if a != [] {
      assert a[0] in multiset(b) && b[0] in multiset(a);
      SameHead(a, b);
      TailOrder(a);
      TailOrder(b);
      SortedUnique(a[1..], b[1..]);
    }
  }

  lemma {:induction false} FilterCounts<T(!new)>(s: seq<T>, p: T -> bool, x: T)
    ensures multiset(Filter(s, p))[x] == if p(x) then multiset(s)[x] else 0
  {
    if s != [] {
      FilterCounts(s[1..], p, x);
      assert s == [s[0]] + s[1..];
    }
  }

  lemma FilterPermutes<T(!new)>(s: seq<T>, t: seq<T>, p: T -> bool)
    requires multiset(s) == multiset(t)
    ensures multiset(Filter(s, p)) == multiset(Filter(t, p))
  {
    forall x
      ensures multiset(Filter(s, p))[x] == multiset(Filter(t, p))[x]
    {
      FilterCounts(s, p, x);
      FilterCounts(t, p, x);
    }
  }

  lemma {:induction false} FilterKeepsSorted(s: seq<Listener>, p: Listener -> bool)
    requires Sorted(s)
    ensures Sorted(Filter(s, p))
  {
    if s != [] {
      TailOrder(s);
      FilterKeepsSorted(s[1..], p);
      var t := Filter(s[1..], p);
      forall j | 0 <= j < |t|
        ensures Diff(s[0], t[j]) <= 0
      {
        assert t[j] in s[1..];
        HeadIsLeast(s, t[j]);
      }
    }
  }

  lemma {:induction false} FilterKeepsStrict(s: seq<Listener>, p: Listener -> bool)
    requires Strict(s)
    ensures Strict(Filter(s, p))
  {
    if s != [] {
      TailOrder(s);
      FilterKeepsStrict(s[1..], p);
      var t := Filter(s[1..], p);
      forall j | 0 <= j < |t|
        ensures Diff(s[0], t[j]) != 0
      {
        assert t[j] in s[1..];
        var i :| 0 <= i < |s[1..]| && s[1..][i] == t[j];
        assert s[i + 1] == t[j];
      }
    }
  }

  /** The rows of the listener table an event may meet, in whatever order the database has them. */
  function Candidates(rows: seq<Listener>, r: Route, deleted: bool): seq<Listener> {
    Filter(rows, (l: Listener) => Matches(l, r) && Visible(l, deleted))
  }

  function Loaded(rows: seq<Listener>, r: Route, deleted: bool): seq<Listener> {
    Sort(Candidates(rows, r, deleted))
  }

  function Live(s: seq<Listener>): seq<Listener> {
    Filter(s, (l: Listener) => l.deletedAt == 0)
  }

  function IndexOfId(s: seq<Listener>, id: string): (i: int)
    ensures -1 <= i < |s|
    ensures i >= 0 ==> s[i].id == id
    ensures forall j :: 0 <= j < (if i < 0 then |s| else i) ==> s[j].id != id
  {
    if s == [] then -1
    else if s[0].id == id then 0
    else
      var i := IndexOfId(s[1..], id);
      if i < 0 then -1 else i + 1
  }

  datatype LoadError = NoListeners | InvalidListener

  /** `Some` of the listeners, or the error thrown. */
  datatype Loading = Listeners(list: seq<Listener>) | Refused(error: LoadError)

  /** The listener is for this source, event type and data type, or for any, and not soft-deleted unless asked for. */
  ghost predicate Meets(l: Listener, r: Route, deleted: bool) {
    && l.srcId in {r.srcId, "*"} && l.eventType in {r.eventType, "*"} && l.dataType in {r.dataType, "*"}
    && if deleted then l.deletedAt >= 0 else l.deletedAt == 0
  }

  /** A load finds exactly the listeners the event meets, in order. */
  lemma LoadedMembers(rows: seq<Listener>, r: Route, deleted: bool)
    ensures var list := Loaded(rows, r, deleted);
            && (forall l :: l in list <==> l in rows && Meets(l, r, deleted))
            && InOrder(list)
  {
    var found := Candidates(rows, r, deleted);
    SortSorts(found);
    SortedIsInOrder(Sort(found));
    forall l
      ensures l in Sort(found) <==> l in rows && Meets(l, r, deleted)
    {
      assert l in Sort(found) <==> l in multiset(Sort(found));
      assert l in found <==> l in multiset(found);
    }
  }

  method LoadListeners(rows: seq<Listener>, r: Route, deleted: bool) returns (result: Loading)
    ensures result.Refused? <==> forall l :: l in rows ==> !(Matches(l, r) && Visible(l, deleted))
    ensures result.Refused? <==> Candidates(rows, r, deleted) == []
    ensures result.Listeners? ==>
      && result.list == Loaded(rows, r, deleted)
      && Sorted(result.list)
      && multiset(result.list) == multiset(Candidates(rows, r, deleted))
      && (forall l :: l in result.list <==> l in rows && Meets(l, r, deleted))
      && InOrder(result.list)
  {
    var listeners := Candidates(rows, r, deleted);
    SortSorts(listeners);
    if |listeners| == 0 {
      assert forall l :: l in rows && Matches(l, r) && Visible(l, deleted) ==> l in listeners;
      return Refused(NoListeners);
    }
    assert listeners[0] in listeners;
    LoadedMembers(rows, r, deleted);
    listeners := Sort(listeners);
    return Listeners(listeners);
  }

  /** What a resume finds: the live listeners from the stored one on. */
  function ResumedSpec(rows: seq<Listener>, r: Route, listenerId: Option<string>): Loading {
    var all := Loaded(rows, r, true);
    if Candidates(rows, r, true) == [] then Refused(NoListeners)
    else if listenerId.None? || listenerId.value == "" then Listeners(Live(all))
    else if IndexOfId(all, listenerId.value) < 0 then Refused(InvalidListener)
    else Listeners(Live(all[IndexOfId(all, listenerId.value)..]))
  }

  method ResumeListeners(rows: seq<Listener>, r: Route, listenerId: Option<string>) returns (result: Loading)
    ensures result == ResumedSpec(rows, r, listenerId)
  {
    var loaded := LoadListeners(rows, r, true);
    if loaded.Refused? {
      return Refused(NoListeners);
    }
    var listeners := loaded.list;
    if listenerId.Some? && listenerId.value != "" {
      var idx := IndexOfId(listeners, listenerId.value);
      if idx < 0 {
        return Refused(InvalidListener);
      }
      if idx > 0 {
        listeners := listeners[idx..];
      }
    }
    assert loaded.list[0..] == loaded.list;
    return Listeners(Live(listeners));
  }

  // ---------------------------------------------------------------- properties

  ghost predicate DistinctIds(rows: seq<Listener>) {
    forall i, j :: 0 <= i < j < |rows| ==> rows[i].id != rows[j].id
  }

  /** Two loads see the same rows and, without ties, return them in the same order. */
  lemma LoadIsDeterministic(rows: seq<Listener>, rows': seq<Listener>, r: Route, deleted: bool)
    requires multiset(rows) == multiset(rows') && Strict(Loaded(rows, r, deleted))
    ensures Loaded(rows, r, deleted) == Loaded(rows', r, deleted)
  {
    FilterPermutes(rows, rows', (l: Listener) => Matches(l, r) && Visible(l, deleted));
    SortSorts(Candidates(rows, r, deleted));
    SortSorts(Candidates(rows', r, deleted));
    SortedUnique(Loaded(rows, r, deleted), Loaded(rows', r, deleted));
  }

  /** The live part of the full list is the list that an emission loads. */
  lemma LiveOfAll(rows: seq<Listener>, r: Route)
    requires Strict(Loaded(rows, r, true))
    ensures Live(Loaded(rows, r, true)) == Loaded(rows, r, false)
    ensures Strict(Loaded(rows, r, false))
  {
    var all := Loaded(rows, r, true);
    var live := (l: Listener) => l.deletedAt == 0;
    SortSorts(Candidates(rows, r, true));
    SortSorts(Candidates(rows, r, false));
    FilterKeepsSorted(all, live);
    FilterKeepsStrict(all, live);
    assert multiset(Live(all)) == multiset(Loaded(rows, r, false)) by {
      forall x
        ensures multiset(Live(all))[x] == multiset(Loaded(rows, r, false))[x]
      {
        FilterCounts(all, live, x);
        FilterCounts(rows, (l: Listener) => Matches(l, r) && Visible(l, true), x);
        FilterCounts(rows, (l: Listener) => Matches(l, r) && Visible(l, false), x);
      }
    }
    SortedUnique(Live(all), Loaded(rows, r, false));
  }

  lemma {:induction false} LiveSuffix(s: seq<Listener>, k: nat)
    requires k < |s| && s[k].deletedAt == 0
    requires DistinctIds(s)
    ensures var i := IndexOfId(Live(s), s[k].id); i >= 0 && Live(s[k..]) == Live(s)[i..]
  {
    if k == 0 {
      assert Live(s)[0] == s[0];
      assert s[0..] == s;
    } else {
      assert DistinctIds(s[1..]);
      LiveSuffix(s[1..], k - 1);
      assert s[1..][k - 1..] == s[k..];
      assert s[1..][k - 1] == s[k];
    }
  }

  lemma {:induction false} SortedIdsDistinct(a: seq<Listener>, b: seq<Listener>)
    requires DistinctIds(a) && multiset(a) == multiset(b)
    ensures DistinctIds(b)
  {
    forall i, j | 0 <= i < j < |b|
      ensures b[i].id != b[j].id
    {
      assert b == b[..j] + [b[j]] + b[j + 1..];
      assert b[i] in b[..j];
      assert b[i] in multiset(a) && b[j] in multiset(a);
      var x :| 0 <= x < |a| && a[x] == b[i];
      var y :| 0 <= y < |a| && a[y] == b[j];
      if x == y {
        assert multiset(b)[b[j]] >= 2;
        AtMostOnce(a, x);
      }
    }
  }

  lemma AtMostOnce(a: seq<Listener>, x: nat)
    requires x < |a| && DistinctIds(a)
    ensures multiset(a)[a[x]] == 1
  {
    assert a == a[..x] + [a[x]] + a[x + 1..];
    assert a[x] !in a[..x] && a[x] !in a[x + 1..];
  }

  lemma {:induction false} CandidatesDistinct(rows: seq<Listener>, p: Listener -> bool)
    requires DistinctIds(rows)
    ensures DistinctIds(Filter(rows, p))
  {
    if rows != [] {
      CandidatesDistinct(rows[1..], p);
      var t := Filter(rows[1..], p);
      assert forall j :: 0 <= j < |t| ==> t[j] in rows[1..];
    }
  }

  /** The full list has distinct ids, and so has its live part. */
  lemma LoadedDistinct(rows: seq<Listener>, r: Route)
    requires DistinctIds(rows)
    ensures DistinctIds(Loaded(rows, r, true)) && DistinctIds(Live(Loaded(rows, r, true)))
  {
    SortSorts(Candidates(rows, r, true));
    CandidatesDistinct(rows, (l: Listener) => Matches(l, r) && Visible(l, true));
    SortedIdsDistinct(Candidates(rows, r, true), Loaded(rows, r, true));
    LiveIdsDistinct(Loaded(rows, r, true));
  }

  /** From a live element on, the live part of the rest is the rest of the live part. */
  lemma SuffixFrom(all: seq<Listener>, i: nat)
    requires DistinctIds(all) && DistinctIds(Live(all)) && i < |Live(all)|
    ensures var k := IndexOfId(all, Live(all)[i].id);
            k >= 0 && Live(all[k..]) == Live(all)[i..]
  {
    var l := Live(all)[i];
    assert l in all;
    var k :| 0 <= k < |all| && all[k] == l;
    LiveSuffix(all, k);
    assert IndexOfId(all, l.id) == k;
    assert IndexOfId(Live(all), l.id) == i;
  }

  /**
   * Whatever order the database returns the rows in, and whichever other rows are
   * soft-deleted: a resume from a live listener continues with exactly the part
   * of the emission's list that starts at that listener.
   */
  lemma ResumeFindsSuffix(rows: seq<Listener>, rows': seq<Listener>, r: Route, i: nat)
    requires DistinctIds(rows) && multiset(rows) == multiset(rows')
    requires Strict(Loaded(rows, r, true))
    requires i < |Loaded(rows, r, false)|
    ensures var ls := Loaded(rows, r, false);
            ls[i].id != "" ==> ResumedSpec(rows', r, Some(ls[i].id)) == Listeners(ls[i..])
  {
    var all := Loaded(rows, r, true);
    LoadIsDeterministic(rows, rows', r, true);
    LiveOfAll(rows, r);
    LoadedDistinct(rows, r);
    SuffixFrom(all, i);
    SortSorts(Candidates(rows', r, true));
    assert |Candidates(rows', r, true)| == |multiset(all)|;
  }

  lemma LiveIdsDistinct(s: seq<Listener>)
    requires DistinctIds(s)
    ensures DistinctIds(Live(s))
  {
    CandidatesDistinct(s, (l: Listener) => l.deletedAt == 0);
  }

  /** Which resumes are refused, and why. */
  lemma ResumeRefusedIff(rows: seq<Listener>, r: Route, listenerId: Option<string>)
    ensures var result := ResumedSpec(rows, r, listenerId);
            && (result == Refused(NoListeners) <==> forall l :: l in rows ==> !Meets(l, r, true))
            && (result == Refused(InvalidListener) <==>
                  && listenerId.Some? && listenerId.value != ""
                  && (exists l :: l in rows && Meets(l, r, true))
                  && forall l :: l in rows && Meets(l, r, true) ==> l.id != listenerId.value)
            && (result.Listeners? && (listenerId.None? || listenerId.value == "") ==>
                  forall l :: l in result.list <==> l in rows && Meets(l, r, true) && l.deletedAt == 0)
  {
    LoadedMembers(rows, r, true);
    NothingMetIff(rows, r);
    if listenerId.Some? {
      IndexOfIdMissing(Loaded(rows, r, true), listenerId.value);
    }
  }

  lemma NothingMetIff(rows: seq<Listener>, r: Route)
    ensures Candidates(rows, r, true) == [] <==> forall l :: l in rows ==> !Meets(l, r, true)
  {
    var found := Candidates(rows, r, true);
    assert found != [] ==> found[0] in found;
    assert forall l :: l in rows && Meets(l, r, true) ==> l in found;
  }

  lemma IndexOfIdMissing(s: seq<Listener>, id: string)
    ensures IndexOfId(s, id) < 0 <==> forall l :: l in s ==> l.id != id
  {
    var i := IndexOfId(s, id);
    if i >= 0 {
      assert s[i] in s;
    }
  }

  lemma IndexOfIdAt(s: seq<Listener>, k: nat)
    requires DistinctIds(s) && k < |s|
    ensures IndexOfId(s, s[k].id) == k
  {
    assert forall j :: 0 <= j < k ==> s[j].id != s[k].id;
  }

  /** The live part from `k` on starts with that listener exactly if it is live. */
  lemma {:induction false} LiveFrom(s: seq<Listener>, k: nat)
    requires DistinctIds(s) && k < |s|
    ensures var l := Live(s[k..]);
            && (l != [] && l[0].id == s[k].id <==> s[k].deletedAt == 0)
            && (s[k].deletedAt != 0 ==> l == Live(s[k + 1..]))
  {
    assert s[k..][0] == s[k] && s[k..][1..] == s[k + 1..];
    var later := Live(s[k + 1..]);
    if later != [] {
      assert later[0] in later && later[0] in s[k + 1..];
      var j :| 0 <= j < |s[k + 1..]| && s[k + 1..][j] == later[0];
      assert s[k + 1 + j].id != s[k].id;
    }
  }

  lemma ResumedFromPosition(rows: seq<Listener>, r: Route, k: nat)
    requires DistinctIds(rows) && k < |Loaded(rows, r, true)| && Loaded(rows, r, true)[k].id != ""
    ensures var all := Loaded(rows, r, true);
            DistinctIds(all) && ResumedSpec(rows, r, Some(all[k].id)) == Listeners(Live(all[k..]))
  {
    var all := Loaded(rows, r, true);
    LoadedDistinct(rows, r);
    SortSorts(Candidates(rows, r, true));
    assert |Candidates(rows, r, true)| == |multiset(all)|;
    IndexOfIdAt(all, k);
  }

  /**
   * What a resume from any stored listener, live or not, runs over: the live part
   * of the full list from it on.  So it starts at the stored listener exactly if
   * that one is not soft-deleted; otherwise the live listeners after it come next.
   */
  lemma ResumeStartsAtStoredIff(rows: seq<Listener>, r: Route, k: nat)
    requires DistinctIds(rows) && k < |Loaded(rows, r, true)| && Loaded(rows, r, true)[k].id != ""
    ensures var all := Loaded(rows, r, true);
            var result := ResumedSpec(rows, r, Some(all[k].id));
            && result == Listeners(Live(all[k..]))
            && (result.list != [] && result.list[0].id == all[k].id <==> all[k].deletedAt == 0)
            && (all[k].deletedAt != 0 ==> result.list == Live(all[k + 1..]))
  {
    ResumedFromPosition(rows, r, k);
    LiveFrom(Loaded(rows, r, true), k);
  }

  /**
   * An instance: the stored listener "a" is soft-deleted meanwhile, and the resumed
   * function is called on "b" instead.
   */
  lemma DeletedListenerShiftsResume()
    ensures var a := Listener("a", "*", "*", "*", Some(0), "first", false, 5);
            var b := Listener("b", "*", "*", "*", Some(1), "second", false, 0);
            ResumedSpec([a, b], Route("s", "e", "d"), Some("a")) == Listeners([b])
  {
    var a := Listener("a", "*", "*", "*", Some(0), "first", false, 5);
    var b := Listener("b", "*", "*", "*", Some(1), "second", false, 0);
    var r := Route("s", "e", "d");
    assert [a, b][1..] == [b] && [b][1..] == [];
    var p := (l: Listener) => Matches(l, r) && Visible(l, true);
    assert Filter([b], p) == [b];
    assert Candidates([a, b], r, true) == [a, b];
    assert Sort([b]) == [b];
    assert Loaded([a, b], r, true) == [a, b];
    assert [a, b][0..] == [a, b];
    var live := (l: Listener) => l.deletedAt == 0;
    assert live(b) && !live(a);
    assert Filter([b], live) == [b] + Filter([], live);
    assert Live([b]) == [b];
    assert Filter([a, b], live) == Filter([b], live);
  }
}
