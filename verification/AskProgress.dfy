/** What each step of the ask protocol does for the task and the agent, told on tasks, calls and answers. */
module AskProgress {
  import opened Wrappers
  import opened AskRegistry
  import opened AskProtocol
  import opened AskInvariants
  import opened AskTheorems

  /** A new question on an executing task; an answer parked before is still there. */
  ghost predicate AskedMove(old_: Task, new_: Task, e: Step, t: string) {
    && e.AskCall? && e.task == t && old_.status == Executing
    && new_ == Task(Awaiting, AwaitingPayload(e.question, e.newQid, old_.ap.pending, old_.ap.pendingActor))
  }

  /** The answered task executes again, with nothing left of its question. */
  ghost predicate FlipMove(old_: Task, new_: Task) {
    old_.status == Awaiting && new_ == Task(Executing, AwaitingPayload("", "", "", ""))
  }

  ghost predicate ParkMove(old_: Task, new_: Task, e: Step, t: string) {
    && e.AnswerCall? && e.task == t && old_.status == Awaiting
    && new_ == Task(Awaiting, AwaitingPayload(old_.ap.question, old_.ap.qid, e.answer, e.actor))
  }

  ghost predicate OutsideMove(old_: Task, new_: Task, e: Step, t: string) {
    || (e.TimerFires? && old_.status == Awaiting && new_ == Task(Aborted, old_.ap))
    || (e.Lifecycle? && e.task == t && e.status != Awaiting && new_ == Task(e.status, old_.ap))
    || (e.HookExit? && e.task == t
        && new_ == Task(old_.status, AwaitingPayload(old_.ap.question, old_.ap.qid, "", "")))
  }

  /** Everything any step can do to a task; one that records no flip makes no flip move. */
  lemma TaskMoves(s: State, e: Step, t: string)
    requires t in s.tasks
    ensures Next(s, e).tasks.Keys == s.tasks.Keys
    ensures var old_, new_ := s.tasks[t], Next(s, e).tasks[t];
            || new_ == old_ || AskedMove(old_, new_, e, t)
            || ParkMove(old_, new_, e, t) || OutsideMove(old_, new_, e, t)
            || (FlipMove(old_, new_) && |Next(s, e).h.flips| == |s.h.flips| + 1)
  {
  }

  /** A recorded flip takes exactly one task from awaiting to executing and strips it; no other task moves. */
  lemma FlipMovesOneTask(s: State, e: Step)
    requires Next(s, e).h.flips != s.h.flips
    ensures (e.AskCall? || e.AnswerCall?) && e.task in s.tasks && s.tasks[e.task].status == Awaiting
    ensures Next(s, e).tasks == s.tasks[e.task := Task(Executing, AwaitingPayload("", "", "", ""))]
    ensures |Next(s, e).h.flips| == |s.h.flips| + 1 && Next(s, e).h.flips[|s.h.flips|].qid == s.tasks[e.task].ap.qid
  {
  }

  // ---------- asking ----------

  /** A call waits on q for t, on a channel registered for q and still empty, and t awaits q. */
  ghost predicate BlockedOn(s: State, x: nat, t: string, q: string) {
    && x in s.asks && s.asks[x].task == t && s.asks[x].qid == q && s.asks[x].phase == Waiting
    && q in s.reg.channels && s.reg.channels[q] == s.asks[x].ch && s.asks[x].ch < |s.reg.heap|
    && s.reg.heap[s.asks[x].ch] == Channel(q, None)
    && t in s.tasks && s.tasks[t].status == Awaiting && s.tasks[t].ap.qid == q
  }

  /** An executing task with no question registered can ask: the call blocks on its new question. */
  lemma ExecutingTaskBlocks(s: State, t: string, question: string, qid: string, updateOk: bool)
    requires t in s.tasks && s.tasks[t].status == Executing && t !in s.reg.qidByTask
    requires question != "" && qid != "" && qid !in s.h.owner
    ensures var s' := Next(s, AskCall(t, question, qid, true, updateOk));
            && BlockedOn(s', s.nextAsk, t, qid) && s'.tasks[t].ap.question == question
            && s'.asks == s.asks[s.nextAsk := s'.asks[s.nextAsk]] && s'.timers == s.timers
  {
  }

  /** One whose ask action fails is left executing and unregistered. */
  lemma FailedAskLeavesNothing(s: State, t: string, question: string, qid: string, updateOk: bool)
    requires Inv(s) && t in s.tasks && s.tasks[t].status == Executing && t !in s.reg.qidByTask
    requires question != "" && qid != "" && qid !in s.h.owner
    ensures var s' := Next(s, AskCall(t, question, qid, false, updateOk));
            s'.tasks == s.tasks && s'.asks == s.asks && s'.reg.channels == s.reg.channels && t !in s'.reg.qidByTask
  {
    assert qid !in s.reg.channels;
  }

  /** An awaiting task without a parked answer re-attaches to its own question. */
  lemma AwaitingTaskReattaches(s: State, t: string, question: string, qid: string, applyOk: bool, updateOk: bool)
    requires Inv(s) && t in s.tasks && s.tasks[t].status == Awaiting && s.tasks[t].ap.pending == "" && question != ""
    ensures var s' := Next(s, AskCall(t, question, qid, applyOk, updateOk));
            BlockedOn(s', s.nextAsk, t, s.tasks[t].ap.qid) && s'.tasks == s.tasks && s'.timers == s.timers
  {
  }

  /** One with a parked answer is handed it and executes again, by whoever parked it. */
  lemma ParkedAnswerIsReturned(s: State, t: string, question: string, qid: string, applyOk: bool)
    requires Inv(s) && t in s.tasks && s.tasks[t].status == Awaiting && s.tasks[t].ap.pending != "" && question != ""
    ensures var ap, s' := s.tasks[t].ap, Next(s, AskCall(t, question, qid, applyOk, true));
            && s'.tasks == s.tasks[t := Task(Executing, AwaitingPayload("", "", "", ""))]
            && s'.h.delivered == s.h.delivered + [Delivery(ap.qid, ap.pending)]
            && s'.h.flips == s.h.flips + [Flip(ap.qid, ap.pending, ap.pendingActor)]
            && s'.reg == s.reg && s'.asks == s.asks
  {
  }

  // ---------- answering ----------

  /** An answer to a blocked call can be received, and what is received is that answer. */
  lemma BlockedCallGetsTheAnswer(s: State, x: nat, t: string, q: string, given: string, answer: string, actor: string)
    requires BlockedOn(s, x, t, q) && given != "" && answer != ""
    ensures var s1 := Next(s, AnswerCall(t, given, answer, actor, true));
            var s2 := Next(s1, Receive(x));
            && s1.tasks == s.tasks[t := Task(Executing, AwaitingPayload("", "", "", ""))]
            && s1.h.flips == s.h.flips + [Flip(q, answer, actor)] && CanReceive(s1, x)
            && s2.tasks == s1.tasks && s2.h.delivered == s.h.delivered + [Delivery(q, answer)]
            && s2.asks == s.asks[x := s.asks[x].(phase := Finished)]
  {
  }

  /** An answer nobody waits for is parked for the next ask. */
  lemma UnheardAnswerIsParked(s: State, t: string, given: string, answer: string, actor: string)
    requires t in s.tasks && s.tasks[t].status == Awaiting && s.tasks[t].ap.qid !in s.reg.channels
    requires given != "" && answer != ""
    ensures var ap, s' := s.tasks[t].ap, Next(s, AnswerCall(t, given, answer, actor, true));
            && s'.tasks == s.tasks[t := Task(Awaiting, AwaitingPayload(ap.question, ap.qid, answer, actor))]
            && s'.reg == s.reg && s'.h.flips == s.h.flips && s'.h.delivered == s.h.delivered
  {
  }

  lemma ReceiveAndCancel(s: State, x: nat, t: string, q: string)
    requires CanReceive(s, x) && s.asks[x].qid == q
    ensures var s' := Next(Next(s, Receive(x)), RunCancel(x));
            && s'.tasks == s.tasks && s'.asks == s.asks - {x} && s'.nextAsk == s.nextAsk && q !in s'.reg.channels
            && (t in s'.reg.qidByTask <==> t in s.reg.qidByTask && s.reg.qidByTask[t] != q)
            && s'.h.owner == s.h.owner
  {
    var s1 := DoReceive(s, x);
    assert s1.asks == s.asks[x := s.asks[x].(phase := Finished)] && s1.reg.qidByTask == s.reg.qidByTask;
    assert Next(s1, RunCancel(x)) == DoCancelAsk(s1, x);
    assert s1.asks - {x} == s.asks - {x};
  }

  lemma AnswerKeepsTheRest(s: State, x: nat, t: string, q: string, given: string, answer: string, actor: string)
    requires AwaitingOwns(s) && BlockedOn(s, x, t, q) && given != "" && answer != ""
    ensures var s' := Next(s, AnswerCall(t, given, answer, actor, true));
            && s'.nextAsk == s.nextAsk && s'.h.owner == s.h.owner && s'.asks == s.asks
            && (t in s'.reg.qidByTask ==> s'.reg.qidByTask[t] == q)
  {
  }

  /** Answered, received and cancelled, a task can ask its next question. */
  lemma AnsweredTaskAsksAgain(s: State, x: nat, t: string, q: string, given: string, answer: string, actor: string,
                              question: string, qid: string)
    requires Inv(s) && BlockedOn(s, x, t, q) && given != "" && answer != ""
    requires question != "" && qid != "" && qid !in s.h.owner
    ensures var answered := Next(s, AnswerCall(t, given, answer, actor, true));
            var done := Next(Next(answered, Receive(x)), RunCancel(x));
            BlockedOn(Next(done, AskCall(t, question, qid, true, true)), s.nextAsk, t, qid)
  {
    hide Next, AwaitingOwns, AsksShape, RegistryShape, RecordsOwned, Tracked, Registered, Consistent, CanReceive;
    BlockedCallGetsTheAnswer(s, x, t, q, given, answer, actor);
    AnswerKeepsTheRest(s, x, t, q, given, answer, actor);
    var answered := Next(s, AnswerCall(t, given, answer, actor, true));
    ReceiveAndCancel(answered, x, t, q);
    ExecutingTaskBlocks(Next(Next(answered, Receive(x)), RunCancel(x)), t, question, qid, true);
  }

  /** Refused calls change nothing: no question, no such task, or a task neither executing nor awaiting. */
  lemma RefusedAskChangesNothing(s: State, t: string, question: string, qid: string, applyOk: bool, updateOk: bool)
    requires question == "" || t !in s.tasks || s.tasks[t].status !in {Executing, Awaiting}
    ensures Next(s, AskCall(t, question, qid, applyOk, updateOk)) == s
  {
  }

  lemma RefusedAnswerChangesNothing(s: State, t: string, given: string, answer: string, actor: string, updateOk: bool)
    requires given == "" || answer == "" || t !in s.tasks || s.tasks[t].status != Awaiting
    ensures Next(s, AnswerCall(t, given, answer, actor, updateOk)) == s
  {
  }

  // ---------- leaving ----------

  /** A lost connection arms the timer for its own question; once cancelled and unanswered, the task is reaped. */
  lemma AbandonedTaskIsReaped(s: State, x: nat, t: string, q: string)
    requires BlockedOn(s, x, t, q) && s.tasks[t].ap.pending == ""
    ensures var left := Next(Next(s, Disconnect(x)), RunCancel(x));
            && left.tasks == s.tasks && left.timers == s.timers[x := (t, q)] && x !in left.asks
            && q !in left.reg.channels
            && Next(left, TimerFires(x)).tasks == s.tasks[t := Task(Aborted, s.tasks[t].ap)]
            && Next(left, TimerFires(x)).timers == s.timers - {x}
  {
    var s1 := DoDisconnect(s, x);
    assert s1.asks[x].phase == Leaving && s1.timers[x] == (t, q);
    var left := DoCancelAsk(s1, x);
    assert Next(s1, RunCancel(x)) == left;
    assert left.timers - {x} == s.timers - {x};
  }
}
