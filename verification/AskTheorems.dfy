/** The promises of the ask protocol over whole runs, and exactly where they stop. */
module AskTheorems {
  import opened Wrappers
  import opened AskRegistry
  import opened AskProtocol
  import opened AskInvariants

  /** A rule on steps, obeyed at every step of a run. */
  ghost predicate Obeys(rule: (State, Step) -> bool, s0: State, steps: seq<Step>) {
    steps == [] ||
    (var before := steps[..|steps| - 1];
     Obeys(rule, s0, before) && rule(Run(s0, before), steps[|steps| - 1]))
  }

  // ---------- every answer has a source ----------

  /** Somebody sent this answer while the question was the current one. */
  ghost predicate Submitted(h: History, q: string, a: string) {
    exists actor :: SubmittedTo(h, q, a, actor)
  }

  /** Held or delivered, an answer was submitted to its question; only an inherited one may not have been. */
  ghost predicate Sourced(s: State) {
    && (forall c :: 0 <= c < |s.reg.heap| && s.reg.heap[c].buffer.Some? ==>
          Submitted(s.h, s.reg.heap[c].qid, s.reg.heap[c].buffer.value))
    && (forall i :: 0 <= i < |s.h.delivered| && s.h.delivered[i].qid !in s.h.inherited ==>
          Submitted(s.h, s.h.delivered[i].qid, s.h.delivered[i].answer))
  }

  lemma SubmittedGrows(h: History, h': History)
    requires h.submitted <= h'.submitted
    ensures forall q, a :: Submitted(h, q, a) ==> Submitted(h', q, a)
  {
    forall q, a | Submitted(h, q, a) ensures Submitted(h', q, a) {
      var actor :| SubmittedTo(h, q, a, actor);
      assert SubmittedTo(h', q, a, actor);
    }
  }

  lemma AnswerSourced(s: State, e: Step)
    requires RegistryShape(s) && Sourced(s) && e.AnswerCall?
    ensures Sourced(Next(s, e))
  {
    var s' := Next(s, e);
    SubmittedGrows(s.h, s'.h);
    if Answerable(s, e.task, e.given, e.answer) && Accepts(s.reg, s.tasks[e.task].ap.qid) {
      assert Submission(e.given, s.tasks[e.task].ap.qid, e.answer, e.actor) in s'.h.submitted;
      assert SubmittedTo(s'.h, s.tasks[e.task].ap.qid, e.answer, e.actor);
    }
  }

  lemma AskSourced(s: State, e: Step)
    requires Provenance(s) && Sourced(s) && e.AskCall?
    ensures Sourced(Next(s, e))
  {
    SubmittedGrows(s.h, Next(s, e).h);
  }

  lemma OtherSourced(s: State, e: Step)
    requires AsksShape(s) && Sourced(s) && !e.AnswerCall? && !e.AskCall?
    ensures Sourced(Next(s, e))
  {
    SubmittedGrows(s.h, Next(s, e).h);
  }

  /** Over every run, lost flips included, a delivered answer was submitted to its question unless inherited. */
  lemma {:induction false} DeliveriesWereSubmitted(s: State, steps: seq<Step>)
    requires Inv(s) && Sourced(s)
    ensures Sourced(Run(s, steps))
  {
    hide Next, Sourced, AsksShape, RegistryShape, Provenance;
    if steps != [] {
      var before, e := steps[..|steps| - 1], steps[|steps| - 1];
      DeliveriesWereSubmitted(s, before);
      RunKeepsInv(s, before);
      match e
      case AskCall(_, _, _, _, _) => AskSourced(Run(s, before), e);
      case AnswerCall(_, _, _, _, _) => AnswerSourced(Run(s, before), e);
      case _ => OtherSourced(Run(s, before), e);
    }
  }

  // ---------- one answer per question ----------

  /** The step that would start a question on top of an earlier question's parked answer. */
  predicate Inherits(s: State, e: Step) {
    && e.AskCall? && e.question != "" && e.task in s.tasks && s.tasks[e.task].status == Executing
    && CanAsk(s, e.task, e.newQid) && e.applyOk && s.tasks[e.task].ap.pending != ""
  }

  /** The step whose answer was handed over but whose task write failed. */
  predicate LosesFlip(s: State, e: Step) {
    && e.AnswerCall? && Answerable(s, e.task, e.given, e.answer)
    && Accepts(s.reg, s.tasks[e.task].ap.qid) && !e.updateOk
  }

  predicate FaultFree(s: State, e: Step) {
    !Inherits(s, e) && !LosesFlip(s, e)
  }

  lemma FaultStep(s: State, e: Step)
    ensures s.h.unflipped <= Next(s, e).h.unflipped && s.h.inherited <= Next(s, e).h.inherited
    ensures if FaultFree(s, e) then Next(s, e).h.unflipped == s.h.unflipped && Next(s, e).h.inherited == s.h.inherited
            else Next(s, e).h.unflipped + Next(s, e).h.inherited != {}
  {
    if Inherits(s, e) {
      assert e.newQid in Next(s, e).h.inherited;
    } else if LosesFlip(s, e) {
      assert s.tasks[e.task].ap.qid in Next(s, e).h.unflipped;
    }
  }

  /** The two faults are recorded exactly when one of those two steps is taken. */
  lemma {:induction false} FaultsRecordedExactly(s0: State, steps: seq<Step>)
    requires Initial(s0)
    ensures Obeys(FaultFree, s0, steps) <==> Run(s0, steps).h.unflipped + Run(s0, steps).h.inherited == {}
  {
    if steps != [] {
      FaultsRecordedExactly(s0, steps[..|steps| - 1]);
      FaultStep(Run(s0, steps[..|steps| - 1]), steps[|steps| - 1]);
    }
  }

  /**
   Over every run: a task is flipped back at most once per question; at most one answer is
   handed back for it unless a flip on it was lost; and what is handed back was submitted
   to it while it was the current question, unless it inherited an earlier answer.
   */
  lemma OneAnswerPerQuestion(s0: State, steps: seq<Step>)
    requires Initial(s0)
    ensures var h := Run(s0, steps).h;
            && (forall i, j :: 0 <= i < j < |h.flips| ==> h.flips[i].qid != h.flips[j].qid)
            && (forall i, j :: 0 <= i < j < |h.delivered| && h.delivered[i].qid !in h.unflipped ==>
                  h.delivered[i].qid != h.delivered[j].qid)
            && (forall i :: 0 <= i < |h.delivered| && h.delivered[i].qid !in h.inherited ==>
                  Submitted(h, h.delivered[i].qid, h.delivered[i].answer))
  {
    RunInv(s0, steps);
    InitInv(s0);
    DeliveriesWereSubmitted(s0, steps);
  }

  /** The recorded answer action names whoever submitted that answer to that question. */
  lemma FlipsAreAttributed(s0: State, steps: seq<Step>, i: nat)
    requires Initial(s0) && i < |Run(s0, steps).h.flips|
    requires Run(s0, steps).h.flips[i].qid !in Run(s0, steps).h.inherited
    ensures var h := Run(s0, steps).h; SubmittedTo(h, h.flips[i].qid, h.flips[i].answer, h.flips[i].actor)
  {
    RunInv(s0, steps);
  }

  /** A parked answer never coexists with a registered waiter, unless a fault has hit that very question. */
  lemma ParkedMeansNoWaiter(s0: State, steps: seq<Step>, t: string)
    requires Initial(s0) && t in Run(s0, steps).tasks && Run(s0, steps).tasks[t].status == Awaiting
    requires Run(s0, steps).tasks[t].ap.pending != ""
    requires Run(s0, steps).tasks[t].ap.qid !in Run(s0, steps).h.unflipped + Run(s0, steps).h.inherited
    ensures Run(s0, steps).tasks[t].ap.qid !in Run(s0, steps).reg.channels
  {
    RunInv(s0, steps);
  }

  /** Task t has a parked answer beside a registration of the question it awaits. */
  ghost predicate Coexists(s: State, t: string) {
    t in s.tasks && s.tasks[t].status == Awaiting && s.tasks[t].ap.pending != "" && s.tasks[t].ap.qid in s.reg.channels
  }

  /** An answer is parked for t although its question is registered: the channel is full already. */
  ghost predicate ParksBeside(s: State, e: Step, t: string) {
    && e.AnswerCall? && e.task == t && e.updateOk && Answerable(s, t, e.given, e.answer)
    && s.tasks[t].ap.qid in s.reg.channels && !Accepts(s.reg, s.tasks[t].ap.qid)
  }

  /** The two come together exactly by an ask that inherits an answer, or an answer that finds the channel full. */
  lemma CoexistIff(s: State, e: Step, t: string)
    requires Inv(s) && !Coexists(s, t)
    ensures Coexists(Next(s, e), t) <==> (Inherits(s, e) && e.task == t) || ParksBeside(s, e, t)
  {
    hide Next, Coexists, Inherits, ParksBeside, Tracked, Registered, Consistent, AsksShape, RecordsOwned;
    match e
    case AskCall(_, _, _, _, _) => AskCoexistIff(s, e, t);
    case AnswerCall(_, _, _, _, _) => AnswerCoexistIff(s, e, t);
    case _ => OtherCoexist(s, e, t);
  }

  lemma AskCoexistIff(s: State, e: Step, t: string)
    requires RegistryShape(s) && AwaitingOwns(s) && !Coexists(s, t) && e.AskCall?
    ensures Coexists(Next(s, e), t) <==> (Inherits(s, e) && e.task == t) || ParksBeside(s, e, t)
  {
  }

  lemma AnswerCoexistIff(s: State, e: Step, t: string)
    requires !Coexists(s, t) && e.AnswerCall?
    ensures Coexists(Next(s, e), t) <==> (Inherits(s, e) && e.task == t) || ParksBeside(s, e, t)
  {
  }

  lemma OtherCoexist(s: State, e: Step, t: string)
    requires !Coexists(s, t) && !e.AskCall? && !e.AnswerCall?
    ensures !Coexists(Next(s, e), t) && !Inherits(s, e) && !ParksBeside(s, e, t)
  {
  }

  /**
   What an inheriting ask leads to, from every reachable state: the agent's very next
   ask returns the old question's answer as the answer to the new one, which nobody
   has answered.
   */
  lemma InheritedAnswerIsDelivered(s: State, e: Step, qid: string)
    requires Inv(s) && Inherits(s, e)
    ensures var s1 := Next(s, e);
            && s1.tasks[e.task].ap.pending != "" && s1.tasks[e.task].ap.qid == e.newQid && e.newQid in s1.reg.channels
    ensures var h := Run(s, [e, AskCall(e.task, e.question, qid, true, true)]).h;
            && h.delivered == s.h.delivered + [Delivery(e.newQid, s.tasks[e.task].ap.pending)]
            && (forall m :: m in h.submitted ==> m.qid != e.newQid)
  {
    var again := AskCall(e.task, e.question, qid, true, true);
    assert [e, again][..1] == [e] && [e][..0] == [];
    assert Run(s, [e]) == Next(s, e);
    assert Run(s, [e, again]) == Next(Next(s, e), again);
  }

  lemma RunAppend(s: State, steps: seq<Step>, e: Step)
    ensures Run(s, steps + [e]) == Next(Run(s, steps), e)
  {
    assert (steps + [e])[..|steps|] == steps;
  }

  /** One task, executing, nothing asked yet. */
  function Fresh(t: string): State {
    Init(map[t := Task(Executing, NoAwaiting)])
  }

  /** The task asked "q1", the call lost its connection and cleaned up. */
  function Abandoned(t: string): State {
    State(map[t := Task(Awaiting, AwaitingPayload("first?", "q1", "", ""))],
          Registry(map[], map[], [Channel("q1", None)]), map[], 1, map[0 := (t, "q1")],
          History(map["q1" := t], {}, [], [], {}, {}, {}))
  }

  lemma FreshIsInitial(t: string)
    ensures Initial(Fresh(t))
  {
    assert Fresh(t) == Init(Fresh(t).tasks);
  }

  lemma AbandonedReachable(t: string)
    ensures Initial(Fresh(t))
    ensures Run(Fresh(t), [AskCall(t, "first?", "q1", true, true), Disconnect(0), RunCancel(0)]) == Abandoned(t)
  {
    FreshIsInitial(t);
    var s0 := Fresh(t);
    var e0, e1, e2 := AskCall(t, "first?", "q1", true, true), Disconnect(0), RunCancel(0);
    assert Next(Next(Next(s0, e0), e1), e2) == Abandoned(t) by { AbandonedBySteps(t); }
    hide Next, Fresh, Abandoned;
    RunAppend(s0, [], e0);
    RunAppend(s0, [e0], e1);
    RunAppend(s0, [e0, e1], e2);
    assert [e0] + [e1] == [e0, e1] && [e0, e1] + [e2] == [e0, e1, e2] && [] + [e0] == [e0];
  }

  lemma AbandonedBySteps(t: string)
    ensures var asked := Next(Fresh(t), AskCall(t, "first?", "q1", true, true));
            Next(Next(asked, Disconnect(0)), RunCancel(0)) == Abandoned(t)
  {
    var s1 := Next(Fresh(t), AskCall(t, "first?", "q1", true, true));
    assert s1.asks == map[0 := Ask(t, "q1", 0, Waiting)];
    var s2 := DoDisconnect(s1, 0);
    assert s2.timers == map[0 := (t, "q1")] && s2.asks == map[0 := Ask(t, "q1", 0, Leaving)];
    assert DoCancelAsk(s2, 0) == Abandoned(t);
  }

  /** An inheriting ask is reachable: an answer is parked, the task is aborted and reopened. */
  lemma InheritingRunExists(t: string)
    ensures var parked := Next(Abandoned(t), AnswerCall(t, "q1", "yes", "human", true));
            var reopened := Next(Next(parked, Lifecycle(t, Aborted)), Lifecycle(t, Executing));
            Inherits(reopened, AskCall(t, "second?", "q2", true, true))
  {
    assert Next(Abandoned(t), AnswerCall(t, "q1", "yes", "human", true)).tasks[t].ap.pending == "yes";
  }

  /**
   What a lost flip leads to, when the call holding the channel is still connected: a
   second answer is parked beside the first and both are handed back.
   */
  lemma LostFlipAnswersTwice(s: State, e: Step, x: nat, given: string, b: string, actor: string)
    requires Inv(s) && LosesFlip(s, e) && given != "" && b != ""
    requires Registrant(s, s.tasks[e.task].ap.qid, x) && s.asks[x].phase == Waiting
    ensures var q := s.tasks[e.task].ap.qid;
            var s2 := Next(Next(s, e), AnswerCall(e.task, given, b, actor, true));
            && s2.tasks[e.task].ap.pending == b && CanReceive(s2, x)
            && Next(Next(s2, Receive(x)), AskCall(e.task, "again", "", true, true)).h.delivered
                 == s.h.delivered + [Delivery(q, e.answer), Delivery(q, b)]
  {
    var q := s.tasks[e.task].ap.qid;
    var s1 := Next(s, e);
    assert !Accepts(s1.reg, q);
    var s2 := Next(s1, AnswerCall(e.task, given, b, actor, true));
    assert s2.tasks[e.task] == Task(Awaiting, s.tasks[e.task].ap.(pending := b, pendingActor := actor)) &&
        s2.reg == s1.reg;
    var s3 := DoReceive(s2, x);
    assert s3.h.delivered == s.h.delivered + [Delivery(q, e.answer)] && s3.tasks == s2.tasks;
    assert ConsumeParked(s3, e.task, true).h.delivered == s3.h.delivered + [Delivery(q, b)];
  }

  // ---------- answers and the question id they name ----------

  /** The caller named the question that is current. */
  predicate Addressed(s: State, e: Step) {
    (e.AnswerCall? && Answerable(s, e.task, e.given, e.answer)
     && (Accepts(s.reg, s.tasks[e.task].ap.qid) || e.updateOk)) ==>
      e.given == s.tasks[e.task].ap.qid
  }

  /** AnswerTask never compares the two ids: they agree throughout exactly if callers make them. */
  lemma {:induction false} AnswersMatchTheirQuestionIff(s0: State, steps: seq<Step>)
    requires Initial(s0)
    ensures Obeys(Addressed, s0, steps) <==> forall m :: m in Run(s0, steps).h.submitted ==> m.given == m.qid
  {
    if steps != [] {
      var s, e := Run(s0, steps[..|steps| - 1]), steps[|steps| - 1];
      AnswersMatchTheirQuestionIff(s0, steps[..|steps| - 1]);
      assert s.h.submitted <= Next(s, e).h.submitted;
      if !Addressed(s, e) {
        assert Submission(e.given, s.tasks[e.task].ap.qid, e.answer, e.actor) in Next(s, e).h.submitted;
      }
    }
  }

  /** In addressed runs every answer handed back was sent for the question it reached, unless inherited. */
  lemma AddressedDeliveries(s0: State, steps: seq<Step>, i: nat)
    requires Initial(s0) && Obeys(Addressed, s0, steps) && i < |Run(s0, steps).h.delivered|
    requires Run(s0, steps).h.delivered[i].qid !in Run(s0, steps).h.inherited
    ensures var h := Run(s0, steps).h;
            var d := h.delivered[i];
            exists actor :: Submission(d.qid, d.qid, d.answer, actor) in h.submitted
  {
    var h := Run(s0, steps).h;
    AnswersMatchTheirQuestionIff(s0, steps);
    OneAnswerPerQuestion(s0, steps);
    var q, a := h.delivered[i].qid, h.delivered[i].answer;
    assert Submitted(h, q, a);
    var actor :| SubmittedTo(h, q, a, actor);
    var given :| Submission(given, q, a, actor) in h.submitted;
    assert Submission(given, q, a, actor).given == q;
  }

  /** An answer sent for any other id still reaches the call waiting on the current one. */
  lemma MisaddressedAnswerIsDelivered(s: State, e: Step, x: nat)
    requires Inv(s) && e.AnswerCall? && Answerable(s, e.task, e.given, e.answer) && e.updateOk
    requires Accepts(s.reg, s.tasks[e.task].ap.qid)
    requires Registrant(s, s.tasks[e.task].ap.qid, x) && s.asks[x].phase == Waiting
    ensures Run(s, [e, Receive(x)]).h.delivered == s.h.delivered + [Delivery(s.tasks[e.task].ap.qid, e.answer)]
  {
    var s1 := Next(s, e);
    assert CanReceive(s1, x) && s1.h.delivered == s.h.delivered;
    assert Next(s1, Receive(x)) == DoReceive(s1, x);
    hide Next, Inv, Answerable, Accepts, Registrant;
    assert [e] + [Receive(x)] == [e, Receive(x)] && [] + [e] == [e];
    RunAppend(s, [], e);
    RunAppend(s, [e], Receive(x));
  }
}
