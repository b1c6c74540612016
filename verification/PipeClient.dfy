/**
 * The task runner's end of the command pipe (templates/task-runner/pipe-client.ts):
 * a table of pending requests, matched with response frames by request id.
 */
module PipeClient {
  import opened Common
  import Ids

  // ------------------------------------------------------------------- framing

  /** JavaScript's `split` at one character. */
  function Split(s: string, c: char): (r: seq<string>)
    ensures |r| > 0
  {
    if s == "" then [""]
    else
      var rest := Split(s[1..], c);
      if s[0] == c then [""] + rest else [[s[0]] + rest[0]] + rest[1..]
  }

  function Join(pieces: seq<string>, c: char): string {
    if pieces == [] then "" else if |pieces| == 1 then pieces[0] else pieces[0] + [c] + Join(pieces[1..], c)
  }

  /** A frame: its prefix, its request id if there is one, and the rest joined again. */
  function DecodeFrame(frame: string): (string, Option<string>, string) {
    var ps := Split(frame, '|');
    if |ps| == 1 then (ps[0], None, "") else (ps[0], Some(ps[1]), Join(ps[2..], '|'))
  }

  lemma {:induction false} JoinSplit(s: string, c: char)
    ensures Join(Split(s, c), c) == s
  {
    if s != "" {
      JoinSplit(s[1..], c);
      var rest := Split(s[1..], c);
      if s[0] == c {
        assert ([""] + rest)[1..] == rest;
        assert [""][0] + [c] + s[1..] == s;
      } else if |rest| == 1 {
        assert [s[0]] + rest[0] == s;
      } else {
        var ps := [[s[0]] + rest[0]] + rest[1..];
        assert ps[1..] == rest[1..];
        assert [s[0]] + (rest[0] + [c] + Join(rest[1..], c)) == s;
      }
    }
  }

  /** A piece without the separator, then the separator, is split off whole. */
  lemma {:induction false} SplitHead(p: string, s: string, c: char)
    requires c !in p
    ensures Split(p + [c] + s, c) == [p] + Split(s, c)
  {
    var t := p + [c] + s;
    if p == "" {
      assert t[1..] == s;
    } else {
      assert t[1..] == p[1..] + [c] + s;
      SplitHead(p[1..], s, c);
      assert [t[0]] + p[1..] == p;
    }
  }

  lemma {:induction false} PiecesAreClean(s: string, c: char)
    ensures forall p :: p in Split(s, c) ==> c !in p
  {
    if s != "" {
      PiecesAreClean(s[1..], c);
      var rest := Split(s[1..], c);
      forall p | p in Split(s, c)
        ensures c !in p
      {
        if p !in rest && s[0] != c {
          assert rest[0] in rest;
        }
      }
    }
  }

  function Frame(prefix: string, id: string, payload: string): string {
    prefix + ['|'] + (id + ['|'] + payload)
  }

  lemma CleanFrameDecodes(prefix: string, id: string, payload: string)
    requires '|' !in prefix && '|' !in id
    ensures DecodeFrame(Frame(prefix, id, payload)) == (prefix, Some(id), payload)
  {
    var body := id + ['|'] + payload;
    var pieces := Split(payload, '|');
    assert Split(Frame(prefix, id, payload), '|') == [prefix] + ([id] + pieces) by {
      SplitHead(prefix, body, '|');
      SplitHead(id, payload, '|');
    }
    TwoPiecesOff(prefix, id, pieces);
    assert Join(pieces, '|') == payload by { JoinSplit(payload, '|'); }
  }

  lemma TwoPiecesOff(a: string, b: string, pieces: seq<string>)
    ensures var ps := [a] + ([b] + pieces); |ps| >= 2 && ps[0] == a && ps[1] == b && ps[2..] == pieces
  {}

  /**
   * A frame decodes to its three parts, whatever separators the payload holds,
   * exactly when the prefix and the id hold none.
   */
  lemma FrameDecodesIff(prefix: string, id: string, payload: string)
    ensures Frame(prefix, id, payload) == prefix + "|" + id + "|" + payload
    ensures DecodeFrame(Frame(prefix, id, payload)) == (prefix, Some(id), payload) <==> '|' !in prefix && '|' !in id
  {
    var frame := Frame(prefix, id, payload);
    if '|' !in prefix && '|' !in id {
      CleanFrameDecodes(prefix, id, payload);
    } else {
      PiecesAreClean(frame, '|');
      var ps := Split(frame, '|');
      assert ps[0] in ps;
      if |ps| > 1 {
        assert ps[1] in ps;
      }
    }
  }

  // -------------------------------------------------------------------- client

  /** How a request's promise ended. */
  datatype Settlement = Resolved(payload: string) | Rejected

  datatype Waiter = Waiter(id: string, cmd: string)

  class PipeClient {
    const cmdPrefix: string
    const requestPrefix: string
    /** Requests written and not answered. */
    var pendingRequests: set<string>
    /** Counts down from zero. */
    var nextRequestId: int
    var isConnected: bool
    /** Commands that wait for the connection. */
    var connectionWaiters: seq<Waiter>
    var settled: map<string, Settlement>
    /** Frames handed to the socket. */
    var written: seq<string>

    constructor (cmdPrefix: string, requestPrefix: string)
      ensures Valid() && nextRequestId == 0 && !isConnected && settled == map[] && written == []
    {
      this.cmdPrefix, this.requestPrefix := cmdPrefix, requestPrefix;
      pendingRequests, nextRequestId, isConnected, connectionWaiters, settled, written := {}, 0, false, [], map[], [];
    }

    /** The id of the n-th request. */
    function RequestId(n: nat): string {
      requestPrefix + ":-" + Ids.Decimal(n)
    }

    lemma RequestIdsDiffer(m: nat, n: nat)
      ensures RequestId(m) == requestPrefix + ":-" + Ids.Decimal(m)
      ensures RequestId(m) == RequestId(n) <==> m == n
    {
      Ids.DecimalInjective(m, n);
      assert RequestId(m)[|requestPrefix| + 2..] == Ids.Decimal(m);
      assert RequestId(n)[|requestPrefix| + 2..] == Ids.Decimal(n);
    }

    ghost function WaiterIds(): set<string>
      reads this
    {
      set w | w in connectionWaiters :: w.id
    }

    /** The ids given out so far. */
    ghost function Issued(): set<string>
      reads this
    {
      if nextRequestId > 0 then {} else set n | 1 <= n <= -nextRequestId :: RequestId(n)
    }

    /**
     * Every request given out is in exactly one place: waiting for the
     * connection, pending, or settled; and nobody waits while connected.
     */
    ghost predicate Valid()
      reads this
    {
      && nextRequestId <= 0
      && WaiterIds() !! pendingRequests !! settled.Keys
      && WaiterIds() + pendingRequests + settled.Keys == Issued()
      && (forall i, j :: 0 <= i < j < |connectionWaiters| ==> connectionWaiters[i].id != connectionWaiters[j].id)
      && (isConnected ==> connectionWaiters == [])
    }

    /** Register the request and write it. */
    method Write(id: string, cmd: string)
      modifies this`pendingRequests, this`written
      ensures pendingRequests == old(pendingRequests) + {id}
      ensures written == old(written) + [Frame(cmdPrefix, id, cmd) + "\n"]
    {
      pendingRequests := pendingRequests + {id};
      written := written + [Frame(cmdPrefix, id, cmd) + "\n"];
    }

    /** The new request has an id never used before; it is written now or waits for the connection. */
    method SendCommand(cmd: string) returns (id: string)
      requires Valid()
      modifies this
      ensures Valid()
      ensures id == RequestId(-nextRequestId)
      ensures id !in old(Issued()) && Issued() == old(Issued()) + {id}
      ensures nextRequestId == old(nextRequestId) - 1 && isConnected == old(isConnected) && settled == old(settled)
      ensures if isConnected
              then pendingRequests == old(pendingRequests) + {id} && written == old(written) + [Frame(cmdPrefix, id, cmd) + "\n"]
              else connectionWaiters == old(connectionWaiters) + [Waiter(id, cmd)]
                   && pendingRequests == old(pendingRequests) && written == old(written)
    {
      nextRequestId := nextRequestId - 1;
      id := RequestId(-nextRequestId);
      forall n: nat | 1 <= n < -nextRequestId
        ensures RequestId(n) != id
      {
        RequestIdsDiffer(n, -nextRequestId);
      }
      assert id !in old(Issued());
      assert Issued() == old(Issued()) + {id};
      if isConnected {
        Write(id, cmd);
        assert WaiterIds() == {};
      } else {
        connectionWaiters := connectionWaiters + [Waiter(id, cmd)];
        assert WaiterIds() == old(WaiterIds()) + {id};
        assert forall i :: 0 <= i < |old(connectionWaiters)| ==> old(connectionWaiters)[i].id in old(WaiterIds());
      }
    }

    /** The connection is up: all waiting commands are written, in order, and nobody waits any more. */
    method OnConnect()
      requires Valid()
      modifies this
      ensures Valid() && isConnected && connectionWaiters == []
      ensures pendingRequests == old(pendingRequests) + old(WaiterIds())
      ensures settled == old(settled) && nextRequestId == old(nextRequestId)
      ensures |written| == |old(written)| + |old(connectionWaiters)| && written[..|old(written)|] == old(written)
      ensures forall i :: 0 <= i < |old(connectionWaiters)| ==>
                written[|old(written)| + i] ==
                  Frame(cmdPrefix, old(connectionWaiters)[i].id, old(connectionWaiters)[i].cmd) + "\n"
    {
      isConnected := true;
      var waiters := connectionWaiters;
      ghost var before := written;
      for i := 0 to |waiters|
        invariant connectionWaiters == waiters && isConnected && nextRequestId == old(nextRequestId) && settled == old(settled)
        invariant pendingRequests == old(pendingRequests) + set w | w in waiters[..i] :: w.id
        invariant |written| == |before| + i && written[..|before|] == before
        invariant forall k :: 0 <= k < i ==> written[|before| + k] == Frame(cmdPrefix, waiters[k].id, waiters[k].cmd) + "\n"
      {
        assert waiters[..i + 1] == waiters[..i] + [waiters[i]];
        Write(waiters[i].id, waiters[i].cmd);
      }
      assert waiters[..|waiters|] == waiters;
      connectionWaiters := [];
      assert WaiterIds() == {};
    }

    method OnClose()
      requires Valid()
      modifies this`isConnected
      ensures Valid() && !isConnected
    {
      isConnected := false;
    }

    /** A response settles its request with the payload; anything else is ignored. */
    method OnData(frame: string)
      requires Valid()
      modifies this
      ensures Valid() && nextRequestId == old(nextRequestId) && isConnected == old(isConnected)
      ensures connectionWaiters == old(connectionWaiters) && written == old(written)
      ensures var (prefix, id, payload) := DecodeFrame(frame);
              if prefix == cmdPrefix && id.Some? && id.value in old(pendingRequests)
              then settled == old(settled)[id.value := Resolved(payload)] && pendingRequests == old(pendingRequests) - {id.value}
              else settled == old(settled) && pendingRequests == old(pendingRequests)
    {
      var (prefix, id, payload) := DecodeFrame(frame);
      if prefix != cmdPrefix {
        return;
      }
      if id.Some? && id.value in pendingRequests {
        settled := settled[id.value := Resolved(payload)];
        pendingRequests := pendingRequests - {id.value};
      }
    }

    /** A failed write rejects its request, unless a response came first. */
    method OnWriteError(id: string)
      requires Valid() && id in pendingRequests + settled.Keys
      modifies this
      ensures Valid() && nextRequestId == old(nextRequestId) && isConnected == old(isConnected)
      ensures connectionWaiters == old(connectionWaiters) && written == old(written)
      ensures pendingRequests == old(pendingRequests) - {id}
      ensures settled == if id in old(settled) then old(settled) else old(settled)[id := Rejected]
    {
      pendingRequests := pendingRequests - {id};
      if id !in settled {
        settled := settled[id := Rejected];
      }
    }

    /** A response to a pending request resolves it with exactly the payload that was sent. */
    method Answer(id: string, payload: string)
      requires Valid() && id in pendingRequests
      requires '|' !in cmdPrefix && '|' !in id
      modifies this
      ensures Valid() && settled == old(settled)[id := Resolved(payload)] && pendingRequests == old(pendingRequests) - {id}
    {
      FrameDecodesIff(cmdPrefix, id, payload);
      OnData(Frame(cmdPrefix, id, payload));
    }
  }
}
