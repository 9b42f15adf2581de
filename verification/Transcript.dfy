/** The message list sent to the model, and the pairing rule providers enforce on it. */
module Transcript {
  import opened ToolAssembly

  /** `Asked` is an assistant message with tool calls, `Answer` a tool message, `Other` the rest. */
  datatype Message = Other(role: string, text: string)
                   | Asked(calls: seq<Call>)
                   | Answer(callId: string, name: string, content: string)

  /** The list opens with one answer per call, in order, under the call's id. */
  ghost predicate AnswersInOrder(calls: seq<Call>, ms: seq<Message>) {
    && |calls| <= |ms|
    && forall k | 0 <= k < |calls| :: ms[k].Answer? && ms[k].callId == calls[k].id
  }

  /** Every `Asked` is followed by exactly the answers to its calls, and no answer stands elsewhere. */
  ghost predicate WellFormed(ms: seq<Message>)
    decreases |ms|
  {
    ms == [] ||
    match ms[0]
    case Other(_, _) => WellFormed(ms[1..])
    case Asked(calls) => AnswersInOrder(calls, ms[1..]) && WellFormed(ms[1 + |calls|..])
    case Answer(_, _, _) => false
  }

  lemma MoreAnswers(calls: seq<Call>, ms: seq<Message>, more: seq<Message>)
    requires AnswersInOrder(calls, ms)
    ensures AnswersInOrder(calls, ms + more)
  {
  }

  /** After a well-formed list, only what is appended matters. */
  lemma {:induction false} AppendWellFormed(a: seq<Message>, b: seq<Message>)
    requires WellFormed(a)
    ensures WellFormed(a + b) <==> WellFormed(b)
    decreases |a|
  {
    if a == [] {
      assert a + b == b;
    } else {
      var k := if a[0].Asked? then 1 + |a[0].calls| else 1;
      assert (a + b)[0] == a[0] && (a + b)[k..] == a[k..] + b && (a + b)[1..] == a[1..] + b;
      AppendWellFormed(a[k..], b);
      if a[0].Asked? {
        MoreAnswers(a[0].calls, a[1..], b);
      }
    }
  }

  /** One exchange is well formed exactly when the answers' ids are the calls' ids, one by one. */
  lemma ExchangeWellFormed(calls: seq<Call>, answers: seq<Message>)
    requires |answers| == |calls| && forall k | 0 <= k < |answers| :: answers[k].Answer?
    ensures WellFormed([Asked(calls)] + answers)
       <==> forall k | 0 <= k < |calls| :: answers[k].callId == calls[k].id
  {
    var ms := [Asked(calls)] + answers;
    assert ms[1..] == answers && ms[1 + |calls|..] == [];
    assert WellFormed([]);
  }
}
