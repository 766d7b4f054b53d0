/**
 TaskAppService's ask and answer entry points (internal/api/task_ask.go,
 internal/api/task_notify.go) in the source's own imperative form, each proved to be
 one step of the protocol.  AskTaskBlocking is cut where it blocks: BeginAsk runs to the
 blocking point, and ReceiveAnswer, LoseConnection and DeferredCancel are what may follow.
 */
module AskService {
  import opened AskRegistry
  import opened AskProtocol

  datatype AskOutcome = Refused(code: nat) | Answered(answer: string) | Blocked(ask: nat)

  class TaskAskService {
    var tasks: map<string, Task>
    const registry: BlockingAskRegistry
    var asks: map<nat, Ask>
    var nextAsk: nat
    var timers: map<nat, (string, string)>
    ghost var h: History

    ghost function Snapshot(): State
      reads this, registry
    {
      State(tasks, registry.State(), asks, nextAsk, timers, h)
    }

    constructor (stored: map<string, Task>)
      ensures Snapshot() == Init(stored) && fresh(registry)
    {
      tasks, asks, nextAsk, timers := stored, map[], 0, map[];
      h := History(map[], {}, [], [], {}, {}, {});
      registry := new BlockingAskRegistry();
    }

    /** The task has a question registered, and not this one. */
    ghost predicate AsksOther(taskID: string, qid: string)
      reads this, registry
    {
      taskID in registry.qidByTask && registry.qidByTask[taskID] != qid
    }

    /** The common tail of both ask paths: the waiter looks its channel up and blocks. */
    method Block(taskID: string, qid: string) returns (ask: nat)
      requires qid in registry.channels
      modifies this`asks, this`nextAsk
      ensures ask == old(nextAsk) && nextAsk == ask + 1
      ensures asks == old(asks)[ask := Ask(taskID, qid, registry.channels[qid], Waiting)]
    {
      var ch := registry.Lookup(qid);
      ask := nextAsk;
      asks := asks[ask := Ask(taskID, qid, ch.value, Waiting)];
      nextAsk := nextAsk + 1;
    }

    /** newQid stands for newQuestionID(); applyOk and updateOk for the two store writes. */
    method BeginAsk(taskID: string, question: string, newQid: string, applyOk: bool, updateOk: bool)
      returns (out: AskOutcome)
      requires newQid != "" && newQid !in h.owner
      modifies this, registry
      ensures Snapshot() == old(Next(Snapshot(), AskCall(taskID, question, newQid, applyOk, updateOk)))
      ensures out.Blocked? ==> out.ask == old(nextAsk) && out.ask in asks
                               && asks[out.ask].task == taskID && asks[out.ask].phase == Waiting
      ensures out.Answered? ==> taskID in old(tasks)
                                && h.delivered == old(h.delivered) + [Delivery(old(tasks)[taskID].ap.qid, out.answer)]
      ensures out.Refused? ==> tasks == old(tasks) && asks == old(asks) && h.delivered == old(h.delivered)
      ensures question == "" ==> out == Refused(400)
      ensures question != "" && taskID !in old(tasks) ==> out == Refused(404)
      ensures question != "" && taskID in old(tasks) && old(tasks)[taskID].status !in {Awaiting, Executing} ==>
              out == Refused(409)
      ensures question != "" && taskID in old(tasks) && old(tasks)[taskID].status == Awaiting ==>
                var ap := old(tasks)[taskID].ap;
                out == if ap.qid == "" then Refused(409)
                       else if ap.pending != "" then if updateOk then Answered(ap.pending) else Refused(500)
                       else if old(AsksOther(taskID, ap.qid)) then Refused(409) else Blocked(old(nextAsk))
      ensures question != "" && taskID in old(tasks) && old(tasks)[taskID].status == Executing ==>
                out == if old(AsksOther(taskID, newQid)) then Refused(409)
                       else if applyOk then Blocked(old(nextAsk)) else Refused(500)
    {
      if question == "" {
        return Refused(400);
      }
      if taskID !in tasks {
        return Refused(404);
      }
      var task := tasks[taskID];
      if task.status == Awaiting {
        if task.ap.qid == "" {
          return Refused(409);
        }
        if task.ap.pending != "" {
          out := ConsumePendingAnswer(taskID, task, updateOk);
          return;
        }
        var ok := registry.Register(taskID, task.ap.qid);
        if !ok {
          return Refused(409);
        }
        var ask := Block(taskID, task.ap.qid);
        return Blocked(ask);
      }
      if task.status != Executing {
        return Refused(409);
      }
      var ok := registry.Register(taskID, newQid);
      if !ok {
        return Refused(409);
      }
      h := h.(owner := h.owner[newQid := taskID]);
      if !applyOk {
        registry.Cancel(newQid);
        return Refused(500);
      }
      var ap := MergeAwaiting(task.ap, question, newQid);
      tasks := tasks[taskID := Task(Awaiting, ap)];
      if ap.pending != "" {
        h := h.(inherited := h.inherited + {newQid});
      }
      var ask := Block(taskID, newQid);
      return Blocked(ask);
    }

    method ConsumePendingAnswer(taskID: string, task: Task, updateOk: bool) returns (out: AskOutcome)
      requires taskID in tasks && tasks[taskID] == task
      modifies this`tasks, this`h
      ensures Snapshot() == old(ConsumeParked(Snapshot(), taskID, updateOk))
      ensures out == if updateOk then Answered(task.ap.pending) else Refused(500)
    {
      if !updateOk {
        return Refused(500);
      }
      tasks := tasks[taskID := Task(Executing, NoAwaiting)];
      h := h.(delivered := h.delivered + [Delivery(task.ap.qid, task.ap.pending)],
              flips := h.flips + [Flip(task.ap.qid, task.ap.pending, task.ap.pendingActor)]);
      return Answered(task.ap.pending);
    }

    /** AnswerTask and answerBlocking; the code is the HTTP status, 200 for success. */
    method AnswerTaskCall(taskID: string, questionID: string, answer: string, actor: string, updateOk: bool)
      returns (code: nat)
      modifies this, registry
      ensures Snapshot() == old(Next(Snapshot(), AnswerCall(taskID, questionID, answer, actor, updateOk)))
      ensures code == 400 <==> questionID == "" || answer == ""
      ensures code == 404 <==> questionID != "" && answer != "" && taskID !in old(tasks)
      ensures code == 409 <==>
              questionID != "" && answer != "" && taskID in old(tasks) && old(tasks)[taskID].status != Awaiting
      ensures code == 200 <==> questionID != "" && answer != "" && taskID in old(tasks)
                               && old(tasks)[taskID].status == Awaiting && updateOk
    {
      if questionID == "" || answer == "" {
        return 400;
      }
      if taskID !in tasks {
        return 404;
      }
      var task := tasks[taskID];
      if task.status != Awaiting {
        return 409;
      }
      var qid := task.ap.qid;
      var accepted := registry.Notify(qid, answer);
      if accepted {
        h := Submit(h, questionID, qid, answer, actor);
        if !updateOk {
          h := h.(unflipped := h.unflipped + {qid});
          return 500;
        }
        tasks := tasks[taskID := Task(Executing, NoAwaiting)];
        h := h.(flips := h.flips + [Flip(qid, answer, actor)]);
        return 200;
      }
      if !updateOk {
        return 500;
      }
      tasks := tasks[taskID := Task(Awaiting, task.ap.(pending := answer, pendingActor := actor))];
      h := Submit(h, questionID, qid, answer, actor);
      return 200;
    }

    method ReceiveAnswer(x: nat) returns (answer: string)
      requires CanReceive(Snapshot(), x)
      modifies this, registry
      ensures Snapshot() == old(Next(Snapshot(), AskProtocol.Receive(x)))
      ensures h.delivered == old(h.delivered) + [Delivery(old(asks[x].qid), answer)]
    {
      var a := asks[x];
      answer := registry.Receive(a.ch);
      asks := asks[x := a.(phase := Finished)];
      h := h.(delivered := h.delivered + [Delivery(a.qid, answer)]);
    }

    /** blockForAnswer's error branch: scheduleGraceAbort. */
    method LoseConnection(x: nat)
      requires x in asks && asks[x].phase == Waiting
      modifies this
      ensures Snapshot() == old(Next(Snapshot(), Disconnect(x)))
    {
      var a := asks[x];
      asks := asks[x := a.(phase := Leaving)];
      timers := timers[x := (a.task, a.qid)];
    }

    method DeferredCancel(x: nat)
      requires x in asks && asks[x].phase != Waiting
      modifies this, registry
      ensures Snapshot() == old(Next(Snapshot(), RunCancel(x)))
    {
      registry.Cancel(asks[x].qid);
      asks := asks - {x};
    }

    method GraceAbortCheck(x: nat) returns (aborted: bool)
      requires x in timers
      modifies this
      ensures Snapshot() == old(Next(Snapshot(), TimerFires(x)))
      ensures aborted <==> old(IsZombie(Snapshot(), timers[x].0, timers[x].1))
      ensures var (t, qid) := old(timers)[x];
              aborted <==> t in old(tasks) && old(tasks)[t].status == Awaiting && qid !in registry.channels
                           && old(tasks)[t].ap.qid == qid && old(tasks)[t].ap.pending == ""
    {
      var (taskID, qid) := timers[x];
      timers := timers - {x};
      if taskID !in tasks {
        return false;
      }
      var task := tasks[taskID];
      if task.status != Awaiting {
        return false;
      }
      if task.ap.qid != qid {
        return false;
      }
      if task.ap.pending != "" {
        return false;
      }
      var live := registry.Has(qid);
      if live {
        return false;
      }
      tasks := tasks[taskID := task.(status := Aborted)];
      return true;
    }
  }
}
