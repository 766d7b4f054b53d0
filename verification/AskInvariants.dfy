/** What every run of the ask protocol keeps, whatever the interleaving. */
module AskInvariants {
  import opened Wrappers
  import opened AskRegistry
  import opened AskProtocol

  ghost predicate Flipped(h: History, q: string) {
    exists i :: 0 <= i < |h.flips| && h.flips[i].qid == q
  }

  ghost predicate DeliveredFor(h: History, q: string) {
    exists i :: 0 <= i < |h.delivered| && h.delivered[i].qid == q
  }

  ghost predicate FlippedWith(h: History, q: string, a: string) {
    exists i :: 0 <= i < |h.flips| && h.flips[i].qid == q && h.flips[i].answer == a
  }

  ghost predicate SubmittedTo(h: History, q: string, a: string, actor: string) {
    exists given :: Submission(given, q, a, actor) in h.submitted
  }

  /** A call in flight holds a channel made for its own question. */
  ghost predicate AsksShape(s: State) {
    && (forall x :: x in s.asks ==>
         && x < s.nextAsk && s.asks[x].ch < |s.reg.heap|
         && s.reg.heap[s.asks[x].ch].qid == s.asks[x].qid
         && s.asks[x].qid in s.h.owner && s.h.owner[s.asks[x].qid] == s.asks[x].task)
    && (forall x :: x in s.timers ==> x < s.nextAsk && (x in s.asks ==> s.asks[x].phase != Waiting))
  }

  /** Registrations point at channels of their own question and at the task that owns it. */
  ghost predicate RegistryShape(s: State) {
    && (forall q :: q in s.reg.channels ==> s.reg.channels[q] < |s.reg.heap| && s.reg.heap[s.reg.channels[q]].qid == q)
    && (forall c :: 0 <= c < |s.reg.heap| ==> s.reg.heap[c].qid in s.h.owner)
    && (forall t :: t in s.reg.qidByTask ==> s.reg.qidByTask[t] in s.h.owner && s.h.owner[s.reg.qidByTask[t]] == t)
  }

  /** An awaiting task's question is its own and has not been flipped yet. */
  ghost predicate AwaitingOwns(s: State) {
    forall t :: t in s.tasks && s.tasks[t].status == Awaiting ==>
      && s.tasks[t].ap.qid != "" && s.tasks[t].ap.qid in s.h.owner && s.h.owner[s.tasks[t].ap.qid] == t
      && !Flipped(s.h, s.tasks[t].ap.qid)
      && (t in s.reg.qidByTask ==> s.reg.qidByTask[t] == s.tasks[t].ap.qid)
  }

  ghost predicate RecordsOwned(s: State) {
    && (forall i :: 0 <= i < |s.h.flips| ==> s.h.flips[i].qid in s.h.owner)
    && (forall m :: m in s.h.submitted ==> m.qid in s.h.owner)
    && s.h.unflipped <= s.h.owner.Keys && s.h.inherited <= s.h.owner.Keys
  }

  ghost predicate FlipsDistinct(s: State) {
    forall i, j :: 0 <= i < j < |s.h.flips| ==> s.h.flips[i].qid != s.h.flips[j].qid
  }

  /** A held answer belongs to a question that was flipped with it and not yet delivered. */
  ghost predicate HeldAnswers(s: State) {
    && (forall c :: 0 <= c < |s.reg.heap| && s.reg.heap[c].buffer.Some? && s.reg.heap[c].qid !in s.h.unflipped ==>
         && FlippedWith(s.h, s.reg.heap[c].qid, s.reg.heap[c].buffer.value)
         && !DeliveredFor(s.h, s.reg.heap[c].qid))
    && (forall c, d :: 0 <= c < d < |s.reg.heap| && s.reg.heap[c].buffer.Some? && s.reg.heap[d].buffer.Some? ==>
         s.reg.heap[c].qid in s.h.unflipped || s.reg.heap[c].qid != s.reg.heap[d].qid)
  }

  /** A question is answered to the agent at most once, with the answer it was flipped with. */
  ghost predicate DeliveredOnce(s: State) {
    && (forall i :: 0 <= i < |s.h.delivered| ==>
         s.h.delivered[i].qid in s.h.unflipped || FlippedWith(s.h, s.h.delivered[i].qid, s.h.delivered[i].answer))
    && (forall i, j :: 0 <= i < j < |s.h.delivered| && s.h.delivered[i].qid !in s.h.unflipped ==>
         s.h.delivered[i].qid != s.h.delivered[j].qid)
  }

  /** Every answer on its way was submitted while its question was the current one. */
  ghost predicate Provenance(s: State) {
    && (forall i :: 0 <= i < |s.h.flips| && s.h.flips[i].qid !in s.h.inherited ==>
         SubmittedTo(s.h, s.h.flips[i].qid, s.h.flips[i].answer, s.h.flips[i].actor))
    && (forall t :: t in s.tasks && s.tasks[t].status == Awaiting && s.tasks[t].ap.pending != "" ==>
         s.tasks[t].ap.qid in s.h.inherited ||
             SubmittedTo(s.h, s.tasks[t].ap.qid, s.tasks[t].ap.pending, s.tasks[t].ap.pendingActor))
  }

  /** A parked answer never coexists with a registered waiter. */
  ghost predicate ParkedAlone(s: State) {
    forall t :: t in s.tasks && s.tasks[t].status == Awaiting && s.tasks[t].ap.pending != "" ==>
      s.tasks[t].ap.qid in s.h.unflipped || s.tasks[t].ap.qid in s.h.inherited || s.tasks[t].ap.qid !in s.reg.channels
  }

  /** Call x holds the channel that question q is registered under. */
  ghost predicate Registrant(s: State, q: string, x: nat) {
    x in s.asks && s.asks[x].qid == q && q in s.reg.channels && s.asks[x].ch == s.reg.channels[q]
  }

  /** A registration belongs to a call that has not run its Cancel; a finished call was answered. */
  ghost predicate Registered(s: State) {
    && (forall q :: q in s.reg.channels ==> exists x :: Registrant(s, q, x))
    && (forall x :: x in s.asks && s.asks[x].phase == Finished ==>
         s.asks[x].qid in s.h.unflipped || Flipped(s.h, s.asks[x].qid))
  }

  ghost predicate Inv(s: State) {
    Consistent(s.reg) && Owned(s) && Tracked(s) && Registered(s)
  }

  lemma InitInv(s: State)
    requires Initial(s)
    ensures Inv(s)
  {
  }

  /** The part of the invariant that says who owns what. */
  ghost predicate Owned(s: State) {
    AsksShape(s) && RegistryShape(s) && AwaitingOwns(s) && RecordsOwned(s)
  }

  /** The part of the invariant that follows an answer from submission to delivery. */
  ghost predicate Tracked(s: State) {
    FlipsDistinct(s) && HeldAnswers(s) && DeliveredOnce(s) && Provenance(s) && ParkedAlone(s)
  }

  lemma FlippedWithFlips(h: History)
    ensures forall q, a :: FlippedWith(h, q, a) ==> Flipped(h, q)
  {
  }

  lemma FlipsGrow(h: History, h': History)
    requires h.flips <= h'.flips
    ensures forall q :: Flipped(h, q) ==> Flipped(h', q)
    ensures forall q, a :: FlippedWith(h, q, a) ==> FlippedWith(h', q, a)
  {
    forall q | Flipped(h, q) ensures Flipped(h', q) {
      var i :| 0 <= i < |h.flips| && h.flips[i].qid == q;
      assert h'.flips[i] == h.flips[i];
    }
    forall q, a | FlippedWith(h, q, a) ensures FlippedWith(h', q, a) {
      var i :| 0 <= i < |h.flips| && h.flips[i].qid == q && h.flips[i].answer == a;
      assert h'.flips[i] == h.flips[i];
    }
  }

  lemma FailedAskOwned(s: State, t: string, qid: string)
    requires Owned(s) && CanAsk(s, t, qid)
    ensures Owned(FailedAsk(s, t, qid))
  {
  }

  lemma FailedAskTracked(s: State, t: string, qid: string)
    requires Owned(s) && Tracked(s) && CanAsk(s, t, qid)
    ensures Tracked(FailedAsk(s, t, qid))
  {
  }

  lemma FailedAskRegistered(s: State, t: string, qid: string)
    requires Owned(s) && Tracked(s) && Registered(s) && CanAsk(s, t, qid)
    ensures Registered(FailedAsk(s, t, qid))
  {
    var s' := FailedAsk(s, t, qid);
    FlipsGrow(s.h, s'.h);
    forall q | q in s'.reg.channels ensures exists x :: Registrant(s', q, x) {
      var x :| Registrant(s, q, x);
      assert Registrant(s', q, x);
    }
  }

  lemma BlockedAskOwned(s: State, t: string, question: string, qid: string)
    requires Owned(s) && t in s.tasks && CanAsk(s, t, qid)
    ensures Owned(BlockedAsk(s, t, question, qid))
  {
  }

  lemma BlockedAskTracked(s: State, t: string, question: string, qid: string)
    requires Owned(s) && Tracked(s) && t in s.tasks && CanAsk(s, t, qid)
    ensures Tracked(BlockedAsk(s, t, question, qid))
  {
  }

  lemma BlockedAskRegistered(s: State, t: string, question: string, qid: string)
    requires Owned(s) && Tracked(s) && Registered(s) && t in s.tasks && CanAsk(s, t, qid)
    ensures Registered(BlockedAsk(s, t, question, qid))
  {
    var s' := BlockedAsk(s, t, question, qid);
    FlipsGrow(s.h, s'.h);
    forall q | q in s'.reg.channels ensures exists x :: Registrant(s', q, x) {
      if q == qid {
        assert Registrant(s', q, s.nextAsk);
      } else {
        var x :| Registrant(s, q, x);
        assert Registrant(s', q, x);
      }
    }
  }

  lemma ConsumeParkedTracked(s: State, t: string, updateOk: bool)
    requires Owned(s) && Tracked(s) && t in s.tasks && s.tasks[t].status == Awaiting && s.tasks[t].ap.pending != ""
    ensures Owned(ConsumeParked(s, t, updateOk)) && Tracked(ConsumeParked(s, t, updateOk))
  {
    var s' := ConsumeParked(s, t, updateOk);
    FlipsGrow(s.h, s'.h);
    var k := |s.h.flips|;
    assert updateOk ==> s'.h.flips[k].qid == s.tasks[t].ap.qid && s'.h.flips[k].answer == s.tasks[t].ap.pending;
  }

  lemma ConsumeParkedRegistered(s: State, t: string, updateOk: bool)
    requires Owned(s) && Tracked(s) && Registered(s) && t in s.tasks && s.tasks[t].status == Awaiting &&
             s.tasks[t].ap.pending != ""
    ensures Registered(ConsumeParked(s, t, updateOk))
  {
    var s' := ConsumeParked(s, t, updateOk);
    FlipsGrow(s.h, s'.h);
    forall q | q in s'.reg.channels ensures exists x :: Registrant(s', q, x) {
      var x :| Registrant(s, q, x);
      assert Registrant(s', q, x);
    }
  }

  lemma ReattachOwned(s: State, t: string)
    requires Owned(s) && t in s.tasks && s.tasks[t].status == Awaiting && s.tasks[t].ap.pending == ""
    ensures Owned(Reattach(s, t))
  {
  }

  lemma ReattachTracked(s: State, t: string)
    requires Owned(s) && Tracked(s) && t in s.tasks && s.tasks[t].status == Awaiting && s.tasks[t].ap.pending == ""
    ensures Tracked(Reattach(s, t))
  {
  }

  lemma ReattachRegistered(s: State, t: string)
    requires Owned(s) && Tracked(s) && Registered(s) && t in s.tasks && s.tasks[t].status == Awaiting &&
             s.tasks[t].ap.pending == ""
    ensures Registered(Reattach(s, t))
  {
    var s' := Reattach(s, t);
    FlipsGrow(s.h, s'.h);
    forall q | q in s'.reg.channels ensures exists x :: Registrant(s', q, x) {
      if s' != s && q == s.tasks[t].ap.qid {
        assert Registrant(s', q, s.nextAsk);
      } else {
        var x :| Registrant(s, q, x);
        assert Registrant(s', q, x);
      }
    }
  }

  lemma HandOverOwned(s: State, t: string, given: string, answer: string, actor: string)
    requires Owned(s) && Answerable(s, t, given, answer) && Accepts(s.reg, s.tasks[t].ap.qid)
    ensures Owned(HandOver(s, t, given, answer, actor))
  {
  }

  lemma HandOverTracked(s: State, t: string, given: string, answer: string, actor: string)
    requires Owned(s) && Tracked(s) && Answerable(s, t, given, answer) && Accepts(s.reg, s.tasks[t].ap.qid)
    ensures Tracked(HandOver(s, t, given, answer, actor))
  {
    var s' := HandOver(s, t, given, answer, actor);
    FlipsGrow(s.h, s'.h);
    var k := |s.h.flips|;
    assert s'.h.flips[k].qid == s.tasks[t].ap.qid && s'.h.flips[k].answer == answer;
  }

  lemma HandOverRegistered(s: State, t: string, given: string, answer: string, actor: string)
    requires Owned(s) && Tracked(s) && Registered(s) && Answerable(s, t, given, answer) &&
             Accepts(s.reg, s.tasks[t].ap.qid)
    ensures Registered(HandOver(s, t, given, answer, actor))
  {
    var s' := HandOver(s, t, given, answer, actor);
    FlipsGrow(s.h, s'.h);
    forall q | q in s'.reg.channels ensures exists x :: Registrant(s', q, x) {
      var x :| Registrant(s, q, x);
      assert Registrant(s', q, x);
    }
  }

  lemma HandOverUnflippedOwned(s: State, t: string, given: string, answer: string, actor: string)
    requires Owned(s) && Answerable(s, t, given, answer) && Accepts(s.reg, s.tasks[t].ap.qid)
    ensures Owned(HandOverUnflipped(s, t, given, answer, actor))
  {
  }

  lemma HandOverUnflippedTracked(s: State, t: string, given: string, answer: string, actor: string)
    requires Owned(s) && Tracked(s) && Answerable(s, t, given, answer) && Accepts(s.reg, s.tasks[t].ap.qid)
    ensures Tracked(HandOverUnflipped(s, t, given, answer, actor))
  {
  }

  lemma HandOverUnflippedRegistered(s: State, t: string, given: string, answer: string, actor: string)
    requires Owned(s) && Tracked(s) && Registered(s) && Answerable(s, t, given, answer) &&
             Accepts(s.reg, s.tasks[t].ap.qid)
    ensures Registered(HandOverUnflipped(s, t, given, answer, actor))
  {
    var s' := HandOverUnflipped(s, t, given, answer, actor);
    FlipsGrow(s.h, s'.h);
    forall q | q in s'.reg.channels ensures exists x :: Registrant(s', q, x) {
      var x :| Registrant(s, q, x);
      assert Registrant(s', q, x);
    }
  }

  lemma ParkTracked(s: State, t: string, given: string, answer: string, actor: string)
    requires Owned(s) && Tracked(s) && Answerable(s, t, given, answer) && !Accepts(s.reg, s.tasks[t].ap.qid)
    ensures Owned(Park(s, t, given, answer, actor)) && Tracked(Park(s, t, given, answer, actor))
  {
  }

  lemma ParkRegistered(s: State, t: string, given: string, answer: string, actor: string)
    requires Owned(s) && Tracked(s) && Registered(s) && Answerable(s, t, given, answer) &&
             !Accepts(s.reg, s.tasks[t].ap.qid)
    ensures Registered(Park(s, t, given, answer, actor))
  {
    var s' := Park(s, t, given, answer, actor);
    FlipsGrow(s.h, s'.h);
    forall q | q in s'.reg.channels ensures exists x :: Registrant(s', q, x) {
      var x :| Registrant(s, q, x);
      assert Registrant(s', q, x);
    }
  }

  lemma DoReceiveOwned(s: State, x: nat)
    requires Owned(s) && CanReceive(s, x)
    ensures Owned(DoReceive(s, x))
  {
  }

  lemma DoReceiveTracked(s: State, x: nat)
    requires Owned(s) && Tracked(s) && CanReceive(s, x)
    ensures Tracked(DoReceive(s, x))
  {
  }

  lemma DoReceiveRegistered(s: State, x: nat)
    requires Owned(s) && Tracked(s) && Registered(s) && CanReceive(s, x)
    ensures Registered(DoReceive(s, x))
  {
    var s' := DoReceive(s, x);
    FlipsGrow(s.h, s'.h);
    forall q | q in s'.reg.channels ensures exists x :: Registrant(s', q, x) {
      var y :| Registrant(s, q, y);
      assert Registrant(s', q, y);
    }
    var c := s.asks[x].ch;
    assert s.reg.heap[c].qid in s.h.unflipped || FlippedWith(s.h, s.reg.heap[c].qid, s.reg.heap[c].buffer.value);
  }

  lemma DoDisconnectTracked(s: State, x: nat)
    requires Owned(s) && Tracked(s) && x in s.asks && s.asks[x].phase == Waiting
    ensures Owned(DoDisconnect(s, x)) && Tracked(DoDisconnect(s, x))
  {
  }

  lemma DoDisconnectRegistered(s: State, x: nat)
    requires Owned(s) && Tracked(s) && Registered(s) && x in s.asks && s.asks[x].phase == Waiting
    ensures Registered(DoDisconnect(s, x))
  {
    var s' := DoDisconnect(s, x);
    FlipsGrow(s.h, s'.h);
    forall q | q in s'.reg.channels ensures exists x :: Registrant(s', q, x) {
      var y :| Registrant(s, q, y);
      assert Registrant(s', q, y);
    }
  }

  lemma DoCancelAskTracked(s: State, x: nat)
    requires Owned(s) && Tracked(s) && x in s.asks && s.asks[x].phase != Waiting
    ensures Owned(DoCancelAsk(s, x)) && Tracked(DoCancelAsk(s, x))
  {
  }

  lemma DoCancelAskRegistered(s: State, x: nat)
    requires Owned(s) && Tracked(s) && Registered(s) && x in s.asks && s.asks[x].phase != Waiting
    ensures Registered(DoCancelAsk(s, x))
  {
    var s' := DoCancelAsk(s, x);
    FlipsGrow(s.h, s'.h);
    forall q | q in s'.reg.channels ensures exists x :: Registrant(s', q, x) {
      var y :| Registrant(s, q, y);
      assert Registrant(s', q, y);
    }
  }

  lemma FireTimerTracked(s: State, x: nat)
    requires Owned(s) && Tracked(s) && x in s.timers
    ensures Owned(FireTimer(s, x)) && Tracked(FireTimer(s, x))
  {
  }

  lemma FireTimerRegistered(s: State, x: nat)
    requires Owned(s) && Tracked(s) && Registered(s) && x in s.timers
    ensures Registered(FireTimer(s, x))
  {
    var s' := FireTimer(s, x);
    FlipsGrow(s.h, s'.h);
    forall q | q in s'.reg.channels ensures exists x :: Registrant(s', q, x) {
      var y :| Registrant(s, q, y);
      assert Registrant(s', q, y);
    }
  }

  lemma ClearParkedTracked(s: State, t: string)
    requires Owned(s) && Tracked(s) && t in s.tasks
    ensures Owned(ClearParked(s, t)) && Tracked(ClearParked(s, t))
  {
  }

  lemma ClearParkedRegistered(s: State, t: string)
    requires Owned(s) && Tracked(s) && Registered(s) && t in s.tasks
    ensures Registered(ClearParked(s, t))
  {
    var s' := ClearParked(s, t);
    FlipsGrow(s.h, s'.h);
    forall q | q in s'.reg.channels ensures exists x :: Registrant(s', q, x) {
      var x :| Registrant(s, q, x);
      assert Registrant(s', q, x);
    }
  }

  /** Whatever a step does to the registry is a registry call, or two. */
  lemma ConsistentKept(s: State, e: Step)
    requires Consistent(s.reg)
    ensures Consistent(Next(s, e).reg)
  {
    if e.AskCall? && e.task in s.tasks {
      var qid := if s.tasks[e.task].status == Awaiting then s.tasks[e.task].ap.qid else e.newQid;
      RegisterConsistent(s.reg, e.task, qid);
      CancelConsistent(RegisterSpec(s.reg, e.task, qid), qid);
    } else if e.RunCancel? && e.ask in s.asks {
      CancelConsistent(s.reg, s.asks[e.ask].qid);
    }
  }

  lemma AskTaskKept(s: State, t: string, question: string, qid: string, applyOk: bool, updateOk: bool)
    requires Owned(s) && Tracked(s) && Registered(s)
    ensures var s' := AskTask(s, t, question, qid, applyOk, updateOk); Owned(s') && Tracked(s') && Registered(s')
  {
    if question != "" && t in s.tasks {
      if s.tasks[t].status == Awaiting {
        if s.tasks[t].ap.pending != "" {
          ConsumeParkedTracked(s, t, updateOk);
          ConsumeParkedRegistered(s, t, updateOk);
        } else {
          ReattachOwned(s, t);
          ReattachTracked(s, t);
          ReattachRegistered(s, t);
        }
      } else if s.tasks[t].status == Executing && CanAsk(s, t, qid) {
        if applyOk {
          BlockedAskOwned(s, t, question, qid);
          BlockedAskTracked(s, t, question, qid);
          BlockedAskRegistered(s, t, question, qid);
        } else {
          FailedAskOwned(s, t, qid);
          FailedAskTracked(s, t, qid);
          FailedAskRegistered(s, t, qid);
        }
      }
    }
  }

  lemma AnswerTaskKept(s: State, t: string, given: string, answer: string, actor: string, updateOk: bool)
    requires Owned(s) && Tracked(s) && Registered(s)
    ensures var s' := AnswerTask(s, t, given, answer, actor, updateOk); Owned(s') && Tracked(s') && Registered(s')
  {
    if Answerable(s, t, given, answer) {
      if Accepts(s.reg, s.tasks[t].ap.qid) {
        if updateOk {
          HandOverOwned(s, t, given, answer, actor);
          HandOverTracked(s, t, given, answer, actor);
          HandOverRegistered(s, t, given, answer, actor);
        } else {
          HandOverUnflippedOwned(s, t, given, answer, actor);
          HandOverUnflippedTracked(s, t, given, answer, actor);
          HandOverUnflippedRegistered(s, t, given, answer, actor);
        }
      } else if updateOk {
        ParkTracked(s, t, given, answer, actor);
        ParkRegistered(s, t, given, answer, actor);
      }
    }
  }

  lemma LifecycleKept(s: State, t: string, status: Status)
    requires Owned(s) && Tracked(s) && Registered(s)
    ensures var s' := Next(s, Lifecycle(t, status)); Owned(s') && Tracked(s') && Registered(s')
  {
    var s' := Next(s, Lifecycle(t, status));
    forall q | q in s'.reg.channels ensures exists x :: Registrant(s', q, x) {
      var x :| Registrant(s, q, x);
      assert Registrant(s', q, x);
    }
  }

  lemma StepInv(s: State, e: Step)
    requires Inv(s)
    ensures Inv(Next(s, e))
  {
    ConsistentKept(s, e);
    match e
    case AskCall(t, question, qid, applyOk, updateOk) => AskTaskKept(s, t, question, qid, applyOk, updateOk);
    case AnswerCall(t, given, answer, actor, updateOk) => AnswerTaskKept(s, t, given, answer, actor, updateOk);
    case Receive(x) =>
      if CanReceive(s, x) {
        DoReceiveOwned(s, x);
        DoReceiveTracked(s, x);
        DoReceiveRegistered(s, x);
      }
    case Disconnect(x) =>
      if x in s.asks && s.asks[x].phase == Waiting {
        DoDisconnectTracked(s, x);
        DoDisconnectRegistered(s, x);
      }
    case RunCancel(x) =>
      if x in s.asks && s.asks[x].phase != Waiting {
        DoCancelAskTracked(s, x);
        DoCancelAskRegistered(s, x);
      }
    case TimerFires(x) =>
      if x in s.timers {
        FireTimerTracked(s, x);
        FireTimerRegistered(s, x);
      }
    case Lifecycle(t, status) => LifecycleKept(s, t, status);
    case HookExit(t) =>
      if t in s.tasks {
        ClearParkedTracked(s, t);
        ClearParkedRegistered(s, t);
      }
  }

  lemma {:induction false} RunKeepsInv(s: State, steps: seq<Step>)
    requires Inv(s)
    ensures Inv(Run(s, steps))
  {
    if steps != [] {
      RunKeepsInv(s, steps[..|steps| - 1]);
      StepInv(Run(s, steps[..|steps| - 1]), steps[|steps| - 1]);
    }
  }

  lemma {:induction false} RunInv(s0: State, steps: seq<Step>)
    requires Initial(s0)
    ensures Inv(Run(s0, steps))
  {
    InitInv(s0);
    RunKeepsInv(s0, steps);
  }
}
