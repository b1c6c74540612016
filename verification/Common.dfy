/** Value types shared by the whole model. */
module Common {

  /** A value the source may leave `undefined` or `null`. */
  datatype Option<+T> = None | Some(value: T)

  /** A JSON payload; endpoints may answer with none at all. */
  datatype Json = Undefined | Json(text: string)

  /**
   * What an endpoint invocation hands back: nothing, `{ statusCode: 2 }`,
   * or `{ data }`.
   */
  datatype Reply = Missing | Pending | Done(data: Json)

  /** The `data` property of a reply. */
  function DataOf(r: Reply): Json {
    if r.Done? then r.data else Undefined
  }

  /** The list lo, lo + 1, ..., hi - 1. */
  function Range(lo: nat, hi: nat): (r: seq<nat>)
    requires lo <= hi
    ensures |r| == hi - lo
    ensures forall k :: 0 <= k < |r| ==> r[k] == lo + k
  {
    seq(hi - lo, k => lo + k)
  }

  /** No element occurs at two positions. */
  predicate NoDup<T(==)>(s: seq<T>) {
    forall i, j :: 0 <= i < j < |s| ==> s[i] != s[j]
  }

  function Flatten<T>(ss: seq<seq<T>>): seq<T> {
    if ss == [] then [] else ss[0] + Flatten(ss[1..])
  }

  lemma {:induction false} FlattenSnoc<T>(ss: seq<seq<T>>, s: seq<T>)
    ensures Flatten(ss + [s]) == Flatten(ss) + s
  {
    if ss == [] {
      assert ss + [s] == [s];
    } else {
      assert (ss + [s])[1..] == ss[1..] + [s];
      FlattenSnoc(ss[1..], s);
    }
  }
}
