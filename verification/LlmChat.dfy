/**
 * The retry loop of a multi-turn chat (`chat` of src/agents/llm.service.ts).  The
 * language model, the parser and the validator are arbitrary.
 */
module LlmChat {
  import opened Common

  datatype Role = System | User | Assistant

  datatype Message = Message(role: Role, content: string)

  /** What parsing and validating a reply comes to. */
  datatype Verdict = Accepts | Rejects | Complains(error: string)

  /** One completion: unpaid, failed on the way, without choices, or a reply. */
  datatype Attempt = Unpaid | Fails(error: string) | NoChoices | Replies(content: string, verdict: Verdict)

  /** The attempts a chat would see. */
  type Model = nat -> Attempt

  datatype Ending = Answered(content: string) | PaymentRequired | Gave(why: Refusal)

  datatype Refusal = Unavailable | Invalid | StillWrong(error: string)

  const MAX_RETRY := 3

  /** The reply and the complaint about it, appended to what is sent; the fixed wording around it is left out. */
  function Correction(llmResult: string, error: string): (r: seq<Message>)
    ensures |r| == 2
  {
    [Message(Assistant, llmResult), Message(User, error)]
  }

  /** How the loop goes on from attempt `i`; `last` is the latest reply, `reason` the latest complaint. */
  datatype Run = Run(ending: Ending, attempts: nat, messages: seq<Message>)

  function From(model: Model, i: nat, messages: seq<Message>, last: string, reason: string): Run
    decreases MAX_RETRY - i
  {
    if i >= MAX_RETRY then Run(Gave(StillWrong(reason)), i, messages)
    else
      match model(i)
      case Unpaid => Run(PaymentRequired, i + 1, messages)
      case NoChoices => Run(Gave(Unavailable), i + 1, messages)
      case Fails(e) => From(model, i + 1, messages + Correction(last, e), last, e)
      case Replies(c, Accepts) => Run(Answered(c), i + 1, messages)
      case Replies(c, Rejects) => Run(Gave(Invalid), i + 1, messages)
      case Replies(c, Complains(e)) => From(model, i + 1, messages + Correction(c, e), c, e)
  }

  /** The conversation sent: the system prompt, then the messages so far. */
  function Opening(prompt: string, original: seq<Message>): seq<Message> {
    [Message(System, prompt)] + original
  }

  class Conversation {
    var originalMessages: seq<Message>

    constructor (messages: seq<Message>)
      ensures originalMessages == messages
    {
      originalMessages := messages;
    }

    /** `None` when the current message is not the user's. */
    method Chat(model: Model, prompt: string) returns (r: Option<Run>)
      modifies this
      ensures r.None? <==> Opening(prompt, old(originalMessages))[|old(originalMessages)|].role != User
      ensures r.Some? ==> r.value == From(model, 0, Opening(prompt, old(originalMessages)), "", "")
      ensures originalMessages == if r.Some? && r.value.ending.Answered?
                                  then old(originalMessages) + [Message(Assistant, r.value.ending.content)]
                                  else old(originalMessages)
    {
      var messages := Opening(prompt, originalMessages);
      if messages[|messages| - 1].role != User {
        return None;
      }
      var llmResult, invalidMsg := "", "";
      var i := 0;
      while i < MAX_RETRY
        invariant i <= MAX_RETRY && originalMessages == old(originalMessages)
        invariant From(model, 0, Opening(prompt, old(originalMessages)), "", "") ==
                  From(model, i, messages, llmResult, invalidMsg)
      {
        var error;
        var attempt := model(i);
        i := i + 1;
        match attempt {
          case Unpaid =>
            return Some(Run(PaymentRequired, i, messages));
          case NoChoices =>
            return Some(Run(Gave(Unavailable), i, messages));
          case Fails(e) =>
            error := e;
          case Replies(content, verdict) =>
            llmResult := content;
            if verdict.Accepts? {
              originalMessages := originalMessages + [Message(Assistant, llmResult)];
              return Some(Run(Answered(llmResult), i, messages));
            }
            if verdict.Rejects? {
              return Some(Run(Gave(Invalid), i, messages));
            }
            error := verdict.error;
        }
        invalidMsg := error;
        messages := messages + Correction(llmResult, error);
      }
      return Some(Run(Gave(StillWrong(invalidMsg)), i, messages));
    }
  }

  /** The attempt is answered by another one. */
  predicate Retried(a: Attempt) {
    a.Fails? || (a.Replies? && a.verdict.Complains?)
  }

  /** Attempt `k` is accepted and all attempts from `i` to it are retried. */
  ghost predicate AcceptedAt(model: Model, i: nat, k: nat) {
    model(k).Replies? && model(k).verdict.Accepts? && forall j: nat :: i <= j < k ==> Retried(model(j))
  }

  /** Of the attempts from `i` on, one is accepted after only retried ones. */
  ghost predicate SomeAccepted(model: Model, i: nat) {
    exists k: nat :: i <= k < MAX_RETRY && AcceptedAt(model, i, k)
  }

  lemma SameAcceptance(model: Model, i: nat, next: nat)
    requires Retried(model(i)) && next == i + 1
    ensures SomeAccepted(model, i) <==> SomeAccepted(model, next)
  {
    if SomeAccepted(model, next) {
      var k: nat :| next <= k < MAX_RETRY && AcceptedAt(model, next, k);
      assert AcceptedAt(model, i, k);
    }
    if SomeAccepted(model, i) {
      var k: nat :| i <= k < MAX_RETRY && AcceptedAt(model, i, k);
      assert AcceptedAt(model, next, k);
    }
  }

  /** A chat asks at most three times, and each failed attempt adds two messages to what is sent. */
  lemma {:induction false} ChatIsBounded(model: Model, i: nat, messages: seq<Message>, last: string, reason: string)
    requires i <= MAX_RETRY
    ensures var r := From(model, i, messages, last, reason);
            && i <= r.attempts <= MAX_RETRY
            && (if i < r.attempts && !Retried(model(r.attempts - 1))
                then |r.messages| == |messages| + 2 * (r.attempts - 1 - i)
                else r.ending.Gave? && |r.messages| == |messages| + 2 * (r.attempts - i))
    decreases MAX_RETRY - i
  {
    if i < MAX_RETRY && Retried(model(i)) {
      var a := model(i);
      var said := if a.Fails? then last else a.content;
      var e := if a.Fails? then a.error else a.verdict.error;
      ChatIsBounded(model, i + 1, messages + Correction(said, e), said, e);
    }
  }

  /**
   * A chat answers exactly when some attempt among the first three is accepted
   * and every earlier one failed by an exception; the answer is that attempt's
   * reply.  An unpaid attempt ends it at once.
   */
  lemma {:induction false} ChatAnswersIff(model: Model, i: nat, messages: seq<Message>, last: string, reason: string)
    requires i <= MAX_RETRY
    ensures var r := From(model, i, messages, last, reason);
            && (r.ending.Answered? <==> SomeAccepted(model, i))
            && (r.ending.Answered? ==> r.attempts > 0 && model(r.attempts - 1) == Replies(r.ending.content, Accepts))
            && (r.ending.PaymentRequired? ==> r.attempts > 0 && model(r.attempts - 1).Unpaid?)
    decreases MAX_RETRY - i
  {
    if i < MAX_RETRY {
      var a := model(i);
      if Retried(a) {
        var said := if a.Fails? then last else a.content;
        var e := if a.Fails? then a.error else a.verdict.error;
        ChatAnswersIff(model, i + 1, messages + Correction(said, e), said, e);
        SameAcceptance(model, i, i + 1);
      } else if a.Replies? && a.verdict.Accepts? {
        assert AcceptedAt(model, i, i);
      }
    }
  }

  /** What an attempt that is retried complains about. */
  function Complaint(a: Attempt): string
    requires Retried(a)
  {
    if a.Fails? then a.error else a.verdict.error
  }

  /** The reply that attempt `j` leaves as the latest one: its own if it brought any, else the one before. */
  function LatestReply(model: Model, j: nat): string {
    match model(j)
    case Replies(content, _) => content
    case _ => if j == 0 then "" else LatestReply(model, j - 1)
  }

  /** The first `n` attempts are retried. */
  ghost predicate AllRetried(model: Model, n: nat) {
    forall j: nat :: j < n ==> Retried(model(j))
  }

  /** What has been sent after `n` retried attempts: for each, the latest reply as the assistant's, the complaint as the user's. */
  ghost predicate Sent(model: Model, opening: seq<Message>, n: nat, messages: seq<Message>)
    requires AllRetried(model, n)
  {
    && |messages| == |opening| + 2 * n && messages[..|opening|] == opening
    && forall j: nat :: j < n ==>
         && messages[|opening| + 2 * j] == Message(Assistant, LatestReply(model, j))
         && messages[|opening| + 2 * j + 1] == Message(User, Complaint(model(j)))
  }

  /** What the first attempt that is not retried makes of the chat. */
  function EndingOf(a: Attempt): Ending
    requires !Retried(a)
  {
    match a
    case Unpaid => PaymentRequired
    case NoChoices => Gave(Unavailable)
    case Replies(content, verdict) => if verdict.Accepts? then Answered(content) else Gave(Invalid)
  }

  /** The state of the loop before attempt `i`. */
  ghost predicate Midway(model: Model, opening: seq<Message>, i: nat, messages: seq<Message>, last: string, reason: string) {
    && AllRetried(model, i) && Sent(model, opening, i, messages)
    && last == (if i == 0 then "" else LatestReply(model, i - 1))
    && reason == (if i == 0 then "" else Complaint(model(i - 1)))
  }

  lemma OneMoreRetry(model: Model, opening: seq<Message>, i: nat, messages: seq<Message>, last: string, reason: string)
    requires Midway(model, opening, i, messages, last, reason) && Retried(model(i))
    ensures var said := LatestReply(model, i);
            Midway(model, opening, i + 1, messages + Correction(said, Complaint(model(i))), said, Complaint(model(i)))
    ensures LatestReply(model, i) == if model(i).Fails? then last else model(i).content
  {
    var after := messages + Correction(LatestReply(model, i), Complaint(model(i)));
    assert after[..|opening|] == messages[..|opening|];
    forall j: nat | j < i + 1
      ensures after[|opening| + 2 * j] == Message(Assistant, LatestReply(model, j))
      ensures after[|opening| + 2 * j + 1] == Message(User, Complaint(model(j)))
    {
      if j < i {
        assert after[|opening| + 2 * j] == messages[|opening| + 2 * j];
        assert after[|opening| + 2 * j + 1] == messages[|opening| + 2 * j + 1];
      }
    }
  }

  /** A run that ends as the attempts from the first on ask for. */
  ghost predicate IsChat(model: Model, opening: seq<Message>, r: Run) {
    && 0 < r.attempts <= MAX_RETRY
    && AllRetried(model, r.attempts - 1)
    && if Retried(model(r.attempts - 1))
       then && r.attempts == MAX_RETRY
            && r.ending == Gave(StillWrong(Complaint(model(r.attempts - 1))))
            && AllRetried(model, r.attempts) && Sent(model, opening, r.attempts, r.messages)
       else r.ending == EndingOf(model(r.attempts - 1)) && Sent(model, opening, r.attempts - 1, r.messages)
  }

  lemma {:induction false} FromIsChat(model: Model, opening: seq<Message>, i: nat, messages: seq<Message>,
                                      last: string, reason: string)
    requires i <= MAX_RETRY && Midway(model, opening, i, messages, last, reason)
    ensures IsChat(model, opening, From(model, i, messages, last, reason))
    decreases MAX_RETRY - i
  {
    if i < MAX_RETRY && Retried(model(i)) {
      OneMoreRetry(model, opening, i, messages, last, reason);
      var said, e := LatestReply(model, i), Complaint(model(i));
      FromIsChat(model, opening, i + 1, messages + Correction(said, e), said, e);
    }
  }

  /**
   * The whole chat: it ends at the first attempt that is not retried, as that
   * attempt has it, or after three retried ones with the last complaint; what was
   * sent is the opening and, for each retried attempt, the latest reply as the
   * assistant's and the complaint as the user's.  In particular it is unpaid
   * exactly if an unpaid attempt comes after only retried ones.
   */
  lemma ChatIs(model: Model, opening: seq<Message>)
    ensures var r := From(model, 0, opening, "", "");
            && IsChat(model, opening, r)
            && (r.ending.PaymentRequired? <==> exists k: nat :: k < MAX_RETRY && model(k).Unpaid? && AllRetried(model, k))
  {
    FromIsChat(model, opening, 0, opening, "", "");
    var r := From(model, 0, opening, "", "");
    forall k: nat | k < MAX_RETRY && model(k).Unpaid? && AllRetried(model, k)
      ensures r.attempts == k + 1
    {
      assert forall j: nat :: j < k ==> Retried(model(j));
    }
  }
}
