/** When the faults of the ask protocol reach the agent: the exact conditions. */
module AskDelivery {
  import opened Wrappers
  import opened AskRegistry
  import opened AskProtocol
  import opened AskInvariants
  import opened AskTheorems

  ghost predicate DeliveredTwice(h: History, q: string) {
    exists i, j :: 0 <= i < j < |h.delivered| && h.delivered[i].qid == q && h.delivered[j].qid == q
  }

  /** Channel c of question q holds an answer that no waiting call can take any more. */
  ghost predicate DeadChannel(s: State, q: string, c: nat) {
    && c < |s.reg.heap| && s.reg.heap[c].qid == q && s.reg.heap[c].buffer.Some?
    && (forall y :: y in s.asks && s.asks[y].ch == c ==> s.asks[y].phase != Waiting)
  }

  ghost predicate Holds(s: State, q: string, d: nat) {
    d < |s.reg.heap| && s.reg.heap[d].qid == q && s.reg.heap[d].buffer.Some?
  }

  /** Apart from channel c, question q has been answered at most once and by its one flip. */
  ghost predicate AnsweredOnceBeside(s: State, q: string, c: nat) {
    && (forall d :: d != c && Holds(s, q, d) ==> Flipped(s.h, q) && !DeliveredFor(s.h, q))
    && (forall d, d' :: d != c && d' != c && Holds(s, q, d) && Holds(s, q, d') ==> d == d')
    && (DeliveredFor(s.h, q) ==> Flipped(s.h, q))
    && !DeliveredTwice(s.h, q)
  }

  lemma DeliverOne(h: History, h': History, d: Delivery, q: string)
    requires h'.delivered == h.delivered + [d] && !DeliveredTwice(h, q)
    ensures d.qid != q ==> !DeliveredTwice(h', q) && (DeliveredFor(h', q) <==> DeliveredFor(h, q))
    ensures d.qid == q && !DeliveredFor(h, q) ==> !DeliveredTwice(h', q)
  {
    forall i, j | 0 <= i < j < |h'.delivered| && h'.delivered[i].qid == q && h'.delivered[j].qid == q
      ensures d.qid == q && DeliveredFor(h, q)
    {
      assert h.delivered[i].qid == q;
    }
    if DeliveredFor(h, q) {
      var i :| 0 <= i < |h.delivered| && h.delivered[i].qid == q;
      assert h'.delivered[i].qid == q;
    }
  }

  /** Nothing is delivered or flipped, no held answer moves, and no call starts waiting on an old channel. */
  ghost predicate Quiet(s: State, s': State) {
    && s'.h.delivered == s.h.delivered && s'.h.flips == s.h.flips && |s.reg.heap| <= |s'.reg.heap|
    && (forall d :: 0 <= d < |s.reg.heap| ==> s'.reg.heap[d] == s.reg.heap[d])
    && (forall d :: |s.reg.heap| <= d < |s'.reg.heap| ==> s'.reg.heap[d].buffer.None?)
    && (forall y :: y in s'.asks && s'.asks[y].ch < |s.reg.heap| && s'.asks[y].phase == Waiting ==>
          y in s.asks && s.asks[y].ch == s'.asks[y].ch && s.asks[y].phase == Waiting)
  }

  lemma QuietKeeps(s: State, s': State, q: string, c: nat)
    requires DeadChannel(s, q, c) && AnsweredOnceBeside(s, q, c) && Quiet(s, s')
    ensures DeadChannel(s', q, c) && AnsweredOnceBeside(s', q, c)
  {
    assert forall d :: Holds(s', q, d) <==> Holds(s, q, d);
  }

  lemma ConsumeAnswersOnce(s: State, t: string, updateOk: bool, q: string, c: nat)
    requires AwaitingOwns(s) && DeadChannel(s, q, c) && AnsweredOnceBeside(s, q, c)
    requires t in s.tasks && s.tasks[t].status == Awaiting
    ensures DeadChannel(ConsumeParked(s, t, updateOk), q, c) && AnsweredOnceBeside(ConsumeParked(s, t, updateOk), q, c)
  {
    var s' := ConsumeParked(s, t, updateOk);
    assert forall d :: Holds(s', q, d) <==> Holds(s, q, d);
    if updateOk {
      var ap := s.tasks[t].ap;
      FlipsGrow(s.h, s'.h);
      DeliverOne(s.h, s'.h, Delivery(ap.qid, ap.pending), q);
      assert s'.h.flips[|s.h.flips|].qid == ap.qid;
    }
  }

  lemma AskAnswersOnce(s: State, e: Step, q: string, c: nat)
    requires AwaitingOwns(s) && DeadChannel(s, q, c) && AnsweredOnceBeside(s, q, c) && e.AskCall?
    ensures DeadChannel(Next(s, e), q, c) && AnsweredOnceBeside(Next(s, e), q, c)
  {
    hide DeadChannel, AnsweredOnceBeside, AwaitingOwns;
    if e.task in s.tasks && s.tasks[e.task].status == Awaiting {
      ConsumeAnswersOnce(s, e.task, e.updateOk, q, c);
    }
    if Quiet(s, Next(s, e)) {
      QuietKeeps(s, Next(s, e), q, c);
    }
  }

  lemma HandOverAnswersOnce(s: State, t: string, given: string, answer: string, actor: string, q: string, c: nat)
    requires RegistryShape(s) && AwaitingOwns(s) && DeadChannel(s, q, c) && AnsweredOnceBeside(s, q, c)
    requires t in s.tasks && s.tasks[t].status == Awaiting && Accepts(s.reg, s.tasks[t].ap.qid)
    ensures var s' := HandOver(s, t, given, answer, actor); DeadChannel(s', q, c) && AnsweredOnceBeside(s', q, c)
  {
    var p, s' := s.tasks[t].ap.qid, HandOver(s, t, given, answer, actor);
    var d0 := s.reg.channels[p];
    FlipsGrow(s.h, s'.h);
    assert s'.h.flips[|s.h.flips|].qid == p;
    assert d0 != c;
    assert forall d :: d != d0 ==> (Holds(s', q, d) <==> Holds(s, q, d));
    assert Holds(s', q, d0) <==> p == q;
    assert DeliveredFor(s'.h, q) <==> DeliveredFor(s.h, q);
    assert DeliveredTwice(s'.h, q) <==> DeliveredTwice(s.h, q);
  }

  lemma AnswerAnswersOnce(s: State, e: Step, q: string, c: nat)
    requires RegistryShape(s) && AwaitingOwns(s) && DeadChannel(s, q, c) && AnsweredOnceBeside(s, q, c)
    requires e.AnswerCall? && FaultFree(s, e)
    ensures DeadChannel(Next(s, e), q, c) && AnsweredOnceBeside(Next(s, e), q, c)
  {
    hide DeadChannel, AnsweredOnceBeside, AwaitingOwns, RegistryShape, HandOver;
    if Answerable(s, e.task, e.given, e.answer) && Accepts(s.reg, s.tasks[e.task].ap.qid) {
      HandOverAnswersOnce(s, e.task, e.given, e.answer, e.actor, q, c);
    } else {
      QuietKeeps(s, Next(s, e), q, c);
    }
  }

  lemma ReceiveAnswersOnce(s: State, e: Step, q: string, c: nat)
    requires AsksShape(s) && DeadChannel(s, q, c) && AnsweredOnceBeside(s, q, c) && e.Receive?
    ensures DeadChannel(Next(s, e), q, c) && AnsweredOnceBeside(Next(s, e), q, c)
  {
    var s' := Next(s, e);
    if CanReceive(s, e.ask) {
      var a := s.asks[e.ask];
      assert forall d :: Holds(s', q, d) ==> Holds(s, q, d) && d != a.ch;
      DeliverOne(s.h, s'.h, Delivery(a.qid, s.reg.heap[a.ch].buffer.value), q);
      assert a.qid == q ==> Holds(s, q, a.ch);
    }
  }

  lemma OtherAnswersOnce(s: State, e: Step, q: string, c: nat)
    requires DeadChannel(s, q, c) && AnsweredOnceBeside(s, q, c) && !e.AskCall? && !e.AnswerCall? && !e.Receive?
    ensures DeadChannel(Next(s, e), q, c) && AnsweredOnceBeside(Next(s, e), q, c)
  {
    hide DeadChannel, AnsweredOnceBeside;
    QuietKeeps(s, Next(s, e), q, c);
  }

  lemma {:induction false} RunAnswersOnce(s: State, steps: seq<Step>, q: string, c: nat)
    requires Inv(s) && DeadChannel(s, q, c) && AnsweredOnceBeside(s, q, c) && Obeys(FaultFree, s, steps)
    ensures DeadChannel(Run(s, steps), q, c) && AnsweredOnceBeside(Run(s, steps), q, c)
  {
    hide Next, DeadChannel, AnsweredOnceBeside, Tracked, Registered, Consistent, FaultFree;
    if steps != [] {
      var before, e := steps[..|steps| - 1], steps[|steps| - 1];
      var mid := Run(s, before);
      RunAnswersOnce(s, before, q, c);
      RunKeepsInv(s, before);
      match e
      case AskCall(_, _, _, _, _) => AskAnswersOnce(mid, e, q, c);
      case AnswerCall(_, _, _, _, _) => AnswerAnswersOnce(mid, e, q, c);
      case Receive(_) => ReceiveAnswersOnce(mid, e, q, c);
      case _ => OtherAnswersOnce(mid, e, q, c);
    }
  }

  /** A state no fault has touched yet. */
  ghost predicate Faultless(s: State) {
    Inv(s) && s.h.unflipped == {} && s.h.inherited == {}
  }

  /** After a lost flip the question has not been answered, and only its registered channel holds anything. */
  lemma LostFlipLeaves(s: State, e: Step)
    requires Faultless(s) && LosesFlip(s, e)
    ensures var q := s.tasks[e.task].ap.qid; var c := s.reg.channels[q];
            Holds(Next(s, e), q, c) && AnsweredOnceBeside(Next(s, e), q, c) && !DeliveredFor(s.h, q)
  {
    var q := s.tasks[e.task].ap.qid;
    var s' := Next(s, e);
    FlippedWithFlips(s.h);
    assert forall d :: Holds(s', q, d) ==> Holds(s, q, d) || d == s.reg.channels[q];
    assert s'.h.delivered == s.h.delivered;
  }

  ghost predicate WaiterHolds(s: State, q: string) {
    exists x :: Registrant(s, q, x) && s.asks[x].phase == Waiting
  }

  lemma NobodyWaitsMeansDead(s: State, e: Step)
    requires Faultless(s) && LosesFlip(s, e) && !WaiterHolds(s, s.tasks[e.task].ap.qid)
    ensures var q := s.tasks[e.task].ap.qid; DeadChannel(Next(s, e), q, s.reg.channels[q])
  {
    var q := s.tasks[e.task].ap.qid;
    var c, s' := s.reg.channels[q], Next(s, e);
    LostFlipLeaves(s, e);
    forall y | y in s'.asks && s'.asks[y].ch == c ensures s'.asks[y].phase != Waiting {
      assert Registrant(s, q, y);
    }
  }

  /** What completes the second delivery: another answer, the holder's receive and the agent's next ask. */
  ghost function SecondAnswer(t: string, q: string, x: nat): seq<Step> {
    [AnswerCall(t, q, "b", "", true), Receive(x), AskCall(t, "again", "", true, true)]
  }

  lemma SecondAnswerFaultFree(s: State, t: string, q: string, x: nat)
    ensures Obeys(FaultFree, s, SecondAnswer(t, q, x))
    ensures Run(s, SecondAnswer(t, q, x))
         == Next(Next(Next(s, AnswerCall(t, q, "b", "", true)), Receive(x)), AskCall(t, "again", "", true, true))
  {
    hide Next;
    ObeysThree(s, AnswerCall(t, q, "b", "", true), Receive(x), AskCall(t, "again", "", true, true));
  }

  lemma TwiceWhileWaiting(s: State, e: Step, x: nat)
    requires Inv(s) && LosesFlip(s, e)
    requires Registrant(s, s.tasks[e.task].ap.qid, x) && s.asks[x].phase == Waiting
    ensures var q := s.tasks[e.task].ap.qid;
            DeliveredTwice(Run(Next(s, e), SecondAnswer(e.task, q, x)).h, q)
  {
    var q := s.tasks[e.task].ap.qid;
    assert q != "";
    hide Next, Inv, Run, SecondAnswer, CanReceive;
    LostFlipAnswersTwice(s, e, x, q, "b", "");
    SecondAnswerFaultFree(Next(s, e), e.task, q, x);
    var h, n := Run(Next(s, e), SecondAnswer(e.task, q, x)).h, |s.h.delivered|;
    assert h.delivered[n].qid == q && h.delivered[n + 1].qid == q;
  }

  lemma ObeysThree(s: State, a: Step, b: Step, c: Step)
    ensures Run(s, [a, b, c]) == Next(Next(Next(s, a), b), c)
    ensures Obeys(FaultFree, s, [a, b, c]) <==>
            FaultFree(s, a) && FaultFree(Next(s, a), b) && FaultFree(Next(Next(s, a), b), c)
  {
    hide Next, FaultFree;
    assert [a, b, c][..2] == [a, b] && [a, b][..1] == [a] && [a][..0] == [];
    assert Run(s, []) == s && Obeys(FaultFree, s, []);
    assert Run(s, [a]) == Next(s, a) && (Obeys(FaultFree, s, [a]) <==> FaultFree(s, a));
    assert Run(s, [a, b]) == Next(Next(s, a), b);
    assert Obeys(FaultFree, s, [a, b]) <==> FaultFree(s, a) && FaultFree(Next(s, a), b);
  }

  /**
   A lost flip makes a second delivery for its question possible, faults aside, exactly
   if the call holding the registered channel is still waiting.
   */
  lemma SecondDeliveryIff(s0: State, steps: seq<Step>, e: Step)
    requires Initial(s0) && Obeys(FaultFree, s0, steps) && LosesFlip(Run(s0, steps), e)
    ensures var s := Run(s0, steps);
            var q := s.tasks[e.task].ap.qid;
            (exists more :: Obeys(FaultFree, Next(s, e), more) && DeliveredTwice(Run(Next(s, e), more).h, q))
            <==> WaiterHolds(s, q)
  {
    var s := Run(s0, steps);
    var q := s.tasks[e.task].ap.qid;
    RunInv(s0, steps);
    FaultsRecordedExactly(s0, steps);
    hide Next, Inv, LosesFlip, DeadChannel;
    if WaiterHolds(s, q) {
      var x :| Registrant(s, q, x) && s.asks[x].phase == Waiting;
      TwiceWhileWaiting(s, e, x);
      SecondAnswerFaultFree(Next(s, e), e.task, q, x);
    } else {
      NobodyWaitsMeansDead(s, e);
      LostFlipLeaves(s, e);
      StepInv(s, e);
      forall more | Obeys(FaultFree, Next(s, e), more) ensures !DeliveredTwice(Run(Next(s, e), more).h, q) {
        RunAnswersOnce(Next(s, e), more, q, s.reg.channels[q]);
      }
    }
  }

  // ---------- the law of answers ----------

  ghost function DeliveredCount(delivered: seq<Delivery>, q: string): nat {
    if delivered == [] then 0
    else DeliveredCount(delivered[..|delivered| - 1], q) + if delivered[|delivered| - 1].qid == q then 1 else 0
  }

  ghost function FlipCount(flips: seq<Flip>, q: string): nat {
    if flips == [] then 0
    else FlipCount(flips[..|flips| - 1], q) + if flips[|flips| - 1].qid == q then 1 else 0
  }

  ghost function HeldCount(heap: seq<Channel>, q: string): nat {
    if heap == [] then 0
    else
      var last := heap[|heap| - 1];
      HeldCount(heap[..|heap| - 1], q) + if last.qid == q && last.buffer.Some? then 1 else 0
  }

  /** How often the run lost the flip of question q. */
  ghost function LostFlips(s: State, steps: seq<Step>, q: string): nat {
    if steps == [] then 0
    else
      var before, e := steps[..|steps| - 1], steps[|steps| - 1];
      LostFlips(s, before, q)
      + if LosesFlip(Run(s, before), e) && Run(s, before).tasks[e.task].ap.qid == q then 1 else 0
  }

  lemma DeliveredSnoc(delivered: seq<Delivery>, d: Delivery, q: string)
    ensures DeliveredCount(delivered + [d], q) == DeliveredCount(delivered, q) + if d.qid == q then 1 else 0
  {
    assert (delivered + [d])[..|delivered|] == delivered;
  }

  lemma FlipSnoc(flips: seq<Flip>, f: Flip, q: string)
    ensures FlipCount(flips + [f], q) == FlipCount(flips, q) + if f.qid == q then 1 else 0
  {
    assert (flips + [f])[..|flips|] == flips;
  }

  lemma HeldSnoc(heap: seq<Channel>, c: Channel, q: string)
    requires c.buffer.None?
    ensures HeldCount(heap + [c], q) == HeldCount(heap, q)
  {
    assert (heap + [c])[..|heap|] == heap;
  }

  /** Filling an empty channel of question p holds one answer more for p and for no other question. */
  lemma {:induction false} HeldFill(heap: seq<Channel>, c: nat, answer: string, q: string)
    requires c < |heap| && heap[c].buffer.None?
    ensures HeldCount(heap[c := heap[c].(buffer := Some(answer))], q)
         == HeldCount(heap, q) + if heap[c].qid == q then 1 else 0
  {
    var n, heap' := |heap| - 1, heap[c := heap[c].(buffer := Some(answer))];
    if c < n {
      HeldFill(heap[..n], c, answer, q);
      assert heap'[..n] == heap[..n][c := heap[c].(buffer := Some(answer))];
    } else {
      assert heap'[..n] == heap[..n];
    }
  }

  lemma HeldDrain(heap: seq<Channel>, c: nat, q: string)
    requires c < |heap| && heap[c].buffer.Some?
    ensures HeldCount(heap, q) == HeldCount(heap[c := heap[c].(buffer := None)], q) + if heap[c].qid == q then 1 else 0
  {
    var drained := heap[c := heap[c].(buffer := None)];
    HeldFill(drained, c, heap[c].buffer.value, q);
    assert drained[c := drained[c].(buffer := heap[c].buffer)] == heap;
  }

  /** Answers handed back or still held for a question, less the flips recorded for it. */
  ghost function Surplus(s: State, q: string): int {
    DeliveredCount(s.h.delivered, q) + HeldCount(s.reg.heap, q) - FlipCount(s.h.flips, q)
  }

  lemma AskSurplus(s: State, e: Step, q: string)
    requires e.AskCall?
    ensures Surplus(Next(s, e), q) == Surplus(s, q)
  {
    hide DeliveredCount, HeldCount, FlipCount;
    var s' := Next(s, e);
    if |s'.reg.heap| > |s.reg.heap| {
      HeldSnoc(s.reg.heap, s'.reg.heap[|s.reg.heap|], q);
      assert s'.reg.heap == s.reg.heap + [s'.reg.heap[|s.reg.heap|]];
    }
    if |s'.h.delivered| > |s.h.delivered| {
      var ap := s.tasks[e.task].ap;
      DeliveredSnoc(s.h.delivered, Delivery(ap.qid, ap.pending), q);
      FlipSnoc(s.h.flips, Flip(ap.qid, ap.pending, ap.pendingActor), q);
    }
  }

  lemma AnswerSurplus(s: State, e: Step, q: string)
    requires RegistryShape(s) && e.AnswerCall?
    ensures Surplus(Next(s, e), q)
         == Surplus(s, q) + if LosesFlip(s, e) && s.tasks[e.task].ap.qid == q then 1 else 0
  {
    hide DeliveredCount, HeldCount, FlipCount;
    if Answerable(s, e.task, e.given, e.answer) && Accepts(s.reg, s.tasks[e.task].ap.qid) {
      var p := s.tasks[e.task].ap.qid;
      HeldFill(s.reg.heap, s.reg.channels[p], e.answer, q);
      FlipSnoc(s.h.flips, Flip(p, e.answer, e.actor), q);
    }
  }

  lemma OtherSurplus(s: State, e: Step, q: string)
    requires AsksShape(s) && !e.AskCall? && !e.AnswerCall?
    ensures Surplus(Next(s, e), q) == Surplus(s, q)
  {
    hide DeliveredCount, HeldCount, FlipCount;
    if e.Receive? && CanReceive(s, e.ask) {
      var a := s.asks[e.ask];
      HeldDrain(s.reg.heap, a.ch, q);
      DeliveredSnoc(s.h.delivered, Delivery(a.qid, s.reg.heap[a.ch].buffer.value), q);
    }
  }

  /**
   Conservation over every run: the answers handed back for a question and those still held
   for it are exactly its recorded flips and its lost ones.
   */
  lemma {:induction false} AnswersConserved(s0: State, steps: seq<Step>, q: string)
    requires Initial(s0)
    ensures Surplus(Run(s0, steps), q) == LostFlips(s0, steps, q)
  {
    if steps != [] {
      var before, e := steps[..|steps| - 1], steps[|steps| - 1];
      var s := Run(s0, before);
      AnswersConserved(s0, before, q);
      RunInv(s0, before);
      hide Next, Surplus, AsksShape, RegistryShape;
      match e
      case AskCall(_, _, _, _, _) => AskSurplus(s, e, q);
      case AnswerCall(_, _, _, _, _) => AnswerSurplus(s, e, q);
      case _ => OtherSurplus(s, e, q);
    }
  }

  lemma {:induction false} FlipsAtMostOne(flips: seq<Flip>, q: string)
    requires forall i, j :: 0 <= i < j < |flips| ==> flips[i].qid != flips[j].qid
    ensures FlipCount(flips, q) <= 1
    ensures FlipCount(flips, q) == 0 <==> forall i :: 0 <= i < |flips| ==> flips[i].qid != q
  {
    if flips != [] {
      FlipsAtMostOne(flips[..|flips| - 1], q);
    }
  }

  /** So over every run the deliveries for a question number at most one more than the flips it lost. */
  lemma DeliveriesBounded(s0: State, steps: seq<Step>, q: string)
    requires Initial(s0)
    ensures DeliveredCount(Run(s0, steps).h.delivered, q) <= 1 + LostFlips(s0, steps, q)
  {
    AnswersConserved(s0, steps, q);
    RunInv(s0, steps);
    FlipsAtMostOne(Run(s0, steps).h.flips, q);
  }

  // ---------- answers nobody gave ----------

  /** Question q was handed an answer nobody submitted to it. */
  ghost predicate Unsubmitted(h: History, q: string) {
    exists i :: 0 <= i < |h.delivered| && h.delivered[i].qid == q && !Submitted(h, q, h.delivered[i].answer)
  }

  predicate InheritsNothing(s: State, e: Step) {
    !Inherits(s, e)
  }

  lemma {:induction false} NothingInherited(s: State, more: seq<Step>)
    requires Obeys(InheritsNothing, s, more) && s.h.inherited == {}
    ensures Run(s, more).h.inherited == {}
  {
    if more != [] {
      NothingInherited(s, more[..|more| - 1]);
      InheritedOnlyBy(Run(s, more[..|more| - 1]), more[|more| - 1]);
    }
  }

  lemma InheritedOnlyBy(s: State, e: Step)
    requires !Inherits(s, e)
    ensures Next(s, e).h.inherited == s.h.inherited
  {
  }

  /** An answer nobody gave can reach the agent after a step, lost flips included, exactly if that step inherits one. */
  lemma UnsubmittedDeliveryIff(s0: State, steps: seq<Step>, e: Step)
    requires Initial(s0) && Obeys(InheritsNothing, s0, steps)
    ensures var s := Run(s0, steps);
            (exists more, q :: Obeys(InheritsNothing, Next(s, e), more) && Unsubmitted(Run(Next(s, e), more).h, q))
            <==> Inherits(s, e)
  {
    var s := Run(s0, steps);
    RunInv(s0, steps);
    if Inherits(s, e) {
      InheritedReaches(s, e);
    } else {
      InitInv(s0);
      DeliveriesWereSubmitted(s0, steps + [e]);
      RunAppend(s0, steps, e);
      NothingInherited(s0, steps);
      InheritedOnlyBy(s, e);
      StepInv(s, e);
      hide Next, Inv, Inherits;
      forall more, q | Obeys(InheritsNothing, Next(s, e), more) ensures !Unsubmitted(Run(Next(s, e), more).h, q) {
        NothingInherited(Next(s, e), more);
        DeliveriesWereSubmitted(Next(s, e), more);
      }
    }
  }

  lemma InheritedReaches(s: State, e: Step)
    requires Inv(s) && Inherits(s, e)
    ensures exists more :: Obeys(InheritsNothing, Next(s, e), more) && Unsubmitted(Run(Next(s, e), more).h, e.newQid)
  {
    var again := AskCall(e.task, e.question, "", true, true);
    var s1 := Next(s, e);
    InheritedAnswerIsDelivered(s, e, "");
    assert [e, again][..1] == [e] && [e][..0] == [] && [again][..0] == [];
    assert Run(s, []) == s && Run(s1, []) == s1;
    assert Run(s, [e]) == s1;
    assert Run(s1, [again]) == Next(s1, again) == Run(s, [e, again]);
    var h := Run(s1, [again]).h;
    assert h.delivered[|s.h.delivered|].qid == e.newQid;
    assert InheritsNothing(s1, again);
    assert Obeys(InheritsNothing, s1, []);
    assert Obeys(InheritsNothing, s1, [again]);
    assert Unsubmitted(h, e.newQid);
  }
}
