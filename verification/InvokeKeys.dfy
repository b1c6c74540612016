/**
 * Invoke keys, `invokeId-eventId`: the name under which a suspended invocation
 * is called back (src/invoke/invoke.service.ts).
 */
module InvokeKeys {

  function Compose(invokeId: string, eventId: string): string {
    invokeId + "-" + eventId
  }

  /** JavaScript's `indexOf` for one character. */
  function IndexOf(s: string, c: char): (i: int)
    ensures -1 <= i < |s|
    ensures i >= 0 ==> s[i] == c
    ensures forall j :: 0 <= j < (if i < 0 then |s| else i) ==> s[j] != c
  {
    if s == "" then -1
    else if s[0] == c then 0
    else
      var r := IndexOf(s[1..], c);
      if r < 0 then -1 else r + 1
  }

  /** `substring(0, -1)` is empty and `substring(0)` is the whole string. */
  function Parse(invokeKey: string): (string, string) {
    var idx := IndexOf(invokeKey, '-');
    if idx < 0 then ("", invokeKey) else (invokeKey[..idx], invokeKey[idx + 1..])
  }

  /** Parsing undoes composing exactly when the invoke id holds no dash. */
  lemma RoundTripIff(invokeId: string, eventId: string)
    ensures Parse(Compose(invokeId, eventId)) == (invokeId, eventId) <==> '-' !in invokeId
  {
    var key := Compose(invokeId, eventId);
    assert key[|invokeId|] == '-';
    assert forall j :: 0 <= j < |invokeId| ==> key[j] == invokeId[j];
    assert key[|invokeId| + 1..] == eventId;
    if '-' in invokeId {
      var k :| 0 <= k < |invokeId| && invokeId[k] == '-';
      assert key[k] == '-';
      assert |Parse(key).0| <= k;
    } else {
      assert IndexOf(key, '-') == |invokeId|;
      assert key[..|invokeId|] == invokeId;
    }
  }

  /**
   * The task runner numbers its requests -1, -2, ..., and that code becomes the
   * invoke id.  The key of such an invocation parses to an empty invoke id and
   * to an event id that is not the event's, so its callback finds no event.
   */
  lemma NegativeCodesAreLost(digits: string, eventId: string)
    requires '-' !in digits
    ensures Parse(Compose("-" + digits, eventId)) == ("", digits + "-" + eventId)
    ensures Parse(Compose("-" + digits, eventId)).1 != eventId
  {
    var key := Compose("-" + digits, eventId);
    assert key[0] == '-';
    assert key[1..] == digits + "-" + eventId;
    assert |digits + "-" + eventId| > |eventId|;
  }

  /** A direct invocation has the empty invoke id; its key always comes back. */
  lemma DirectKey(eventId: string)
    ensures Parse(Compose("", eventId)) == ("", eventId)
  {
    RoundTripIff("", eventId);
  }
}
