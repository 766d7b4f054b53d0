/**
 The blocking question/answer protocol (internal/api/task_ask.go) as a transition system.

 A step is one critical section of the source: the prologue of AskTaskBlocking up to the
 point where it blocks, AnswerTask, a waiter receiving or losing its connection, the
 deferred Cancel, the grace timer, and the two things other code does to the same task
 row (a lifecycle action, and the dispatch loop's clean-up when a hook exits).
 A disabled step leaves the state alone, so a run is any list of steps.
 */
module AskProtocol {
  import opened Wrappers
  import opened AskRegistry

  datatype Status = Pending | Executing | Awaiting | Done | Aborted

  /** The `awaiting` trait; an absent trait reads back as all-empty. */
  datatype AwaitingPayload = AwaitingPayload(question: string, qid: string, pending: string, pendingActor: string)

  const NoAwaiting := AwaitingPayload("", "", "", "")

  datatype Task = Task(status: Status, ap: AwaitingPayload)

  datatype Phase = Waiting | Leaving | Finished

  /** An AskTaskBlocking call past its prologue, holding the channel its Wait looked up. */
  datatype Ask = Ask(task: string, qid: string, ch: nat, phase: Phase)

  /** An AnswerTask call that reached answerBlocking: the id it named and the id it answered. */
  datatype Submission = Submission(given: string, qid: string, answer: string, actor: string)

  datatype Delivery = Delivery(qid: string, answer: string)

  /** One awaiting-to-executing transition and the answer action recorded with it. */
  datatype Flip = Flip(qid: string, answer: string, actor: string)

  /**
   What happened so far.  The last three sets name the questions hit by a fault: the
   fast path's task write failed after the answer was handed over, the ask inherited an
   earlier question's parked answer, a parked answer was wiped by a hook exit.
   */
  datatype History = History(
    owner: map<string, string>,
    submitted: set<Submission>,
    delivered: seq<Delivery>,
    flips: seq<Flip>,
    unflipped: set<string>,
    inherited: set<string>,
    wiped: set<string>)

  datatype State = State(
    tasks: map<string, Task>,
    reg: Registry,
    asks: map<nat, Ask>,
    nextAsk: nat,
    timers: map<nat, (string, string)>,
    h: History)

  function Init(tasks: map<string, Task>): State {
    State(tasks, AskRegistry.Empty, map[], 0, map[], History(map[], {}, [], [], {}, {}, {}))
  }

  datatype Step =
    | AskCall(task: string, question: string, newQid: string, applyOk: bool, updateOk: bool)
    | AnswerCall(task: string, given: string, answer: string, actor: string, updateOk: bool)
    | Receive(ask: nat)
    | Disconnect(ask: nat)
    | RunCancel(ask: nat)
    | TimerFires(ask: nat)
    | Lifecycle(task: string, status: Status)
    | HookExit(task: string)

  // ---------- the prologue of AskTaskBlocking ----------

  /** The ask action's payload merge: it overwrites the keys it carries and keeps the rest. */
  function MergeAwaiting(old_: AwaitingPayload, question: string, qid: string): AwaitingPayload {
    AwaitingPayload(question, qid, old_.pending, old_.pendingActor)
  }

  /** The ask action was refused: the deferred Cancel undoes the registration. */
  function FailedAsk(s: State, t: string, qid: string): State {
    s.(reg := CancelSpec(RegisterSpec(s.reg, t, qid), qid), h := s.h.(owner := s.h.owner[qid := t]))
  }

  function BlockedAsk(s: State, t: string, question: string, qid: string): State
    requires t in s.tasks
  {
    var ap := MergeAwaiting(s.tasks[t].ap, question, qid);
    var h := s.h.(owner := s.h.owner[qid := t]);
    s.(tasks := s.tasks[t := Task(Awaiting, ap)],
       reg := RegisterSpec(s.reg, t, qid),
       asks := s.asks[s.nextAsk := Ask(t, qid, |s.reg.heap|, Waiting)],
       nextAsk := s.nextAsk + 1,
       h := if ap.pending == "" then h else h.(inherited := h.inherited + {qid}))
  }

  /** Question ids are random and never repeat; a stale registration refuses the ask. */
  predicate CanAsk(s: State, t: string, qid: string) {
    qid != "" && qid !in s.h.owner && !Refuses(s.reg, t, qid)
  }

  function FreshAsk(s: State, t: string, question: string, qid: string, applyOk: bool): State
    requires t in s.tasks
  {
    if !CanAsk(s, t, qid) then s
    else if applyOk then BlockedAsk(s, t, question, qid)
    else FailedAsk(s, t, qid)
  }

  /** consumePendingAnswer: flip, strip the trait, hand the parked answer back. */
  function ConsumeParked(s: State, t: string, updateOk: bool): State
    requires t in s.tasks
  {
    var ap := s.tasks[t].ap;
    if !updateOk then s
    else s.(tasks := s.tasks[t := Task(Executing, NoAwaiting)],
            h := s.h.(delivered := s.h.delivered + [Delivery(ap.qid, ap.pending)],
                      flips := s.h.flips + [Flip(ap.qid, ap.pending, ap.pendingActor)]))
  }

  function Reattach(s: State, t: string): State
    requires t in s.tasks
  {
    var qid := s.tasks[t].ap.qid;
    if Refuses(s.reg, t, qid) then s
    else s.(reg := RegisterSpec(s.reg, t, qid),
            asks := s.asks[s.nextAsk := Ask(t, qid, |s.reg.heap|, Waiting)],
            nextAsk := s.nextAsk + 1)
  }

  function AskTask(s: State, t: string, question: string, newQid: string, applyOk: bool, updateOk: bool): State {
    if question == "" || t !in s.tasks then s
    else if s.tasks[t].status == Awaiting then
      if s.tasks[t].ap.qid == "" then s
      else if s.tasks[t].ap.pending != "" then ConsumeParked(s, t, updateOk)
      else Reattach(s, t)
    else if s.tasks[t].status != Executing then s
    else FreshAsk(s, t, question, newQid, applyOk)
  }

  // ---------- AnswerTask and answerBlocking ----------

  /** AnswerTask's own checks; the id the caller names is only required to be present. */
  predicate Answerable(s: State, t: string, given: string, answer: string) {
    given != "" && answer != "" && t in s.tasks && s.tasks[t].status == Awaiting
  }

  function Submit(h: History, given: string, qid: string, answer: string, actor: string): History {
    h.(submitted := h.submitted + {Submission(given, qid, answer, actor)})
  }

  /** Fast path: the answer is in the channel, then the task row is written. */
  function HandOver(s: State, t: string, given: string, answer: string, actor: string): State
    requires t in s.tasks
  {
    var qid := s.tasks[t].ap.qid;
    var h := Submit(s.h, given, qid, answer, actor);
    s.(tasks := s.tasks[t := Task(Executing, NoAwaiting)],
       reg := NotifySpec(s.reg, qid, answer),
       h := h.(flips := h.flips + [Flip(qid, answer, actor)]))
  }

  /** Fast path whose row write failed: the answer cannot be taken back. */
  function HandOverUnflipped(s: State, t: string, given: string, answer: string, actor: string): State
    requires t in s.tasks
  {
    var qid := s.tasks[t].ap.qid;
    var h := Submit(s.h, given, qid, answer, actor);
    s.(reg := NotifySpec(s.reg, qid, answer), h := h.(unflipped := h.unflipped + {qid}))
  }

  /** Slow path: no live waiter, the answer waits in the row. */
  function Park(s: State, t: string, given: string, answer: string, actor: string): State
    requires t in s.tasks
  {
    var ap := s.tasks[t].ap;
    s.(tasks := s.tasks[t := Task(Awaiting, ap.(pending := answer, pendingActor := actor))],
       h := Submit(s.h, given, ap.qid, answer, actor))
  }

  function AnswerBlocking(s: State, t: string, given: string, answer: string, actor: string, updateOk: bool): State
    requires t in s.tasks
  {
    if Accepts(s.reg, s.tasks[t].ap.qid) then
      if updateOk then HandOver(s, t, given, answer, actor) else HandOverUnflipped(s, t, given, answer, actor)
    else if updateOk then Park(s, t, given, answer, actor)
    else s
  }

  function AnswerTask(s: State, t: string, given: string, answer: string, actor: string, updateOk: bool): State {
    if Answerable(s, t, given, answer) then AnswerBlocking(s, t, given, answer, actor, updateOk) else s
  }

  // ---------- the blocked call and the reaper ----------

  predicate CanReceive(s: State, x: nat) {
    && x in s.asks && s.asks[x].phase == Waiting
    && s.asks[x].ch < |s.reg.heap| && s.reg.heap[s.asks[x].ch].buffer.Some?
  }

  function DoReceive(s: State, x: nat): State
    requires CanReceive(s, x)
  {
    var a := s.asks[x];
    s.(reg := DrainSpec(s.reg, a.ch),
       asks := s.asks[x := a.(phase := Finished)],
       h := s.h.(delivered := s.h.delivered + [Delivery(a.qid, s.reg.heap[a.ch].buffer.value)]))
  }

  /** The lost connection: the reaper is armed, the deferred Cancel has yet to run. */
  function DoDisconnect(s: State, x: nat): State
    requires x in s.asks
  {
    var a := s.asks[x];
    s.(asks := s.asks[x := a.(phase := Leaving)], timers := s.timers[x := (a.task, a.qid)])
  }

  function DoCancelAsk(s: State, x: nat): State
    requires x in s.asks
  {
    s.(reg := CancelSpec(s.reg, s.asks[x].qid), asks := s.asks - {x})
  }

  /** graceAbortCheck's four conditions. */
  predicate IsZombie(s: State, t: string, qid: string) {
    && t in s.tasks && s.tasks[t].status == Awaiting
    && s.tasks[t].ap.qid == qid && s.tasks[t].ap.pending == "" && qid !in s.reg.channels
  }

  function FireTimer(s: State, x: nat): State
    requires x in s.timers
  {
    var (t, qid) := s.timers[x];
    var s' := s.(timers := s.timers - {x});
    if IsZombie(s, t, qid) then s'.(tasks := s.tasks[t := s.tasks[t].(status := Aborted)]) else s'
  }

  /** ClearPendingAnswer on the fresh row, whatever its status; a row with no answer is left as it is. */
  function ClearParked(s: State, t: string): State
    requires t in s.tasks
  {
    var task := s.tasks[t];
    if task.ap.pending == "" then s
    else s.(tasks := s.tasks[t := task.(ap := task.ap.(pending := "", pendingActor := ""))],
            h := if task.status == Awaiting then s.h.(wiped := s.h.wiped + {task.ap.qid}) else s.h)
  }

  function Next(s: State, e: Step): State {
    match e
    case AskCall(t, question, qid, applyOk, updateOk) => AskTask(s, t, question, qid, applyOk, updateOk)
    case AnswerCall(t, given, answer, actor, updateOk) => AnswerTask(s, t, given, answer, actor, updateOk)
    case Receive(x) => if CanReceive(s, x) then DoReceive(s, x) else s
    case Disconnect(x) => if x in s.asks && s.asks[x].phase == Waiting then DoDisconnect(s, x) else s
    case RunCancel(x) => if x in s.asks && s.asks[x].phase != Waiting then DoCancelAsk(s, x) else s
    case TimerFires(x) => if x in s.timers then FireTimer(s, x) else s
    case Lifecycle(t, status) =>
      if t in s.tasks && status != Awaiting then s.(tasks := s.tasks[t := s.tasks[t].(status := status)]) else s
    case HookExit(t) => if t in s.tasks then ClearParked(s, t) else s
  }

  function Run(s: State, steps: seq<Step>): State {
    if steps == [] then s else Next(Run(s, steps[..|steps| - 1]), steps[|steps| - 1])
  }

  /** A daemon starts with no task awaiting: start-up aborts the ones a restart left behind. */
  ghost predicate Initial(s: State) {
    exists tasks: map<string, Task> :: s == Init(tasks) && forall t :: t in tasks ==> tasks[t].status != Awaiting
  }
}
