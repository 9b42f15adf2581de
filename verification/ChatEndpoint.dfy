/** One POST to the chat endpoint: decisions first, then the bounded tool loop. */
module ChatEndpoint {
  import opened Transcript
  import opened Approvals
  import opened ApprovalGate
  import opened ApprovalReplay
  import opened ToolLoop
  import opened TurnCourse

  lemma TurnFitsBudget(provider: Provider, fallbacks: seq<Provider>, maxRounds: nat, answers: seq<Kinds>)
    requires maxRounds >= 1
    ensures var course := CourseOf(true, provider, fallbacks, 0, maxRounds, answers);
            && course.requests <= 1 + maxRounds + |fallbacks| + course.bare
            && (|answers| > 1 + maxRounds + |fallbacks| + course.bare ==> course.finished)
            && (Quiet(answers) ==> course.bare == 0)
  {
    BudgetHolds(true, provider, fallbacks, 0, maxRounds, answers);
    if Quiet(answers) {
      QuietProvidersAddNothing(true, provider, fallbacks, 0, maxRounds, answers);
    }
  }

  lemma AllRequestsPaired(s: ToolLoop.Start, log: seq<LoopEvent>)
    requires Legal(s, log)
    ensures forall i | 0 <= i < |log| && log[i].Requested? && s.paired :: WellFormed(log[i].messages)
  {
    forall i | 0 <= i < |log| && log[i].Requested? && s.paired ensures WellFormed(log[i].messages) {
      RequestsStayPaired(s, log, i);
    }
  }

  /** A turn makes exactly the requests its course says and ends within its budget however providers
      behave, as long as they call no tools when none are offered; and every transcript it sends pairs
      up if the client's did and each decision named an approval. */
  method Chat(cleaned0: seq<Message>, items: seq<Item>, store: ApprovalStore, c: Caller, canon: string -> string,
              toolResults: nat -> string, provider: Provider, fallbacks: seq<Provider>, maxRounds: nat, script: seq<Reply>)
    returns (turn: ChatTurn, cleaned: seq<Message>, acts: seq<Act>, used: nat, finished: bool)
    requires store.Valid() && c.workspace != "" && maxRounds >= 1
    modifies store
    ensures fresh(turn) && turn.Valid() && turn.store == store && Legal(turn.start, turn.log)
    ensures turn.start.rows == RowsAt(old(store.rows), c, items, |items|)
    ensures turn.start.workspace == c.workspace && turn.start.user == c.user
    ensures turn.start.paired <==> WellFormed(cleaned0) && forall n | 0 <= n < |items| :: items[n].id != ""
    ensures |acts| == |items| && forall n | 0 <= n < |items| :: ActsOn(acts[n], TicketAt(old(store.rows), c, items, n))
    ensures cleaned0 <= cleaned && (items == [] ==> cleaned == cleaned0)
    ensures Story(RequestsSince(turn.log, 0), Turn(cleaned, true, provider, fallbacks, 0), script, Setting(maxRounds, canon, turn.log))
    ensures used == |RequestsSince(turn.log, 0)|
    ensures var course := CourseOf(true, provider, fallbacks, 0, maxRounds, KindsOf(script));
            && used == course.requests && finished == course.finished
            && used <= 1 + maxRounds + |fallbacks| + course.bare
            && (|script| > 1 + maxRounds + |fallbacks| + course.bare ==> finished)
            && (Quiet(KindsOf(script)) ==> course.bare == 0)
    ensures forall i | 0 <= i < |turn.log| && turn.log[i].Requested? && turn.start.paired :: WellFormed(turn.log[i].messages)
  {
    cleaned, acts := ResolveApproved(cleaned0, items, store, c, toolResults);
    ghost var paired := WellFormed(cleaned0) && forall n | 0 <= n < |items| :: items[n].id != "";
    turn := new ChatTurn(c.workspace, c.user, paired, store, canon, toolResults, c.clock);
    used, finished := turn.StreamChat(cleaned, true, provider, fallbacks, 0, maxRounds, script);
    TurnFitsBudget(provider, fallbacks, maxRounds, KindsOf(script));
    AllRequestsPaired(turn.start, turn.log);
    RequestsCounted(turn.log, 0);
  }
}
