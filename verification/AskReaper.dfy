/** The grace timer: it leaves nobody stranded, and when it can kill a live ask. */
module AskReaper {
  import opened Wrappers
  import opened AskRegistry
  import opened AskProtocol
  import opened AskInvariants
  import opened AskTheorems

  // ---------- no orphaned ask ----------

  /** Call x still waits on (t, q), or the timer it armed for (t, q) is still running. */
  ghost predicate CoveredBy(s: State, t: string, q: string, x: nat) {
    || (x in s.asks && s.asks[x].phase == Waiting && s.asks[x].task == t && s.asks[x].qid == q)
    || (x in s.timers && s.timers[x] == (t, q))
  }

  ghost predicate Covered(s: State, t: string)
    requires t in s.tasks
  {
    s.tasks[t].ap.pending != "" || exists x :: CoveredBy(s, t, s.tasks[t].ap.qid, x)
  }

  ghost predicate NoOrphan(s: State) {
    forall t :: t in s.tasks && s.tasks[t].status == Awaiting ==>
      s.tasks[t].ap.qid in s.h.unflipped || s.tasks[t].ap.qid in s.h.wiped || Covered(s, t)
  }

  ghost predicate LeaversArmed(s: State) {
    forall x :: x in s.asks && s.asks[x].phase == Leaving ==>
        x in s.timers && s.timers[x] == (s.asks[x].task, s.asks[x].qid)
  }

  /** A disconnected call runs its deferred Cancel within its own grace period. */
  predicate PromptCancel(s: State, e: Step) {
    e.TimerFires? ==> e.ask !in s.asks
  }

  lemma LeaversArmedKept(s: State, e: Step)
    requires AsksShape(s) && LeaversArmed(s) && PromptCancel(s, e)
    ensures LeaversArmed(Next(s, e))
  {
  }

  /** Calls and timers that cover a task keep covering it unless this step ends them. */
  lemma StillCovered(s: State, s': State, t: string, q: string)
    requires exists x :: CoveredBy(s, t, q, x)
    requires forall x :: CoveredBy(s, t, q, x) ==> CoveredBy(s', t, q, x)
    ensures exists x :: CoveredBy(s', t, q, x)
  {
    var x :| CoveredBy(s, t, q, x);
    assert CoveredBy(s', t, q, x);
  }

  /** A registered, unparked question is covered even without the timer that is firing. */
  lemma RegistrationCovers(s: State, t: string, fired: nat)
    requires Inv(s) && LeaversArmed(s) && fired !in s.asks
    requires t in s.tasks && s.tasks[t].status == Awaiting && s.tasks[t].ap.qid in s.reg.channels
    requires s.tasks[t].ap.qid !in s.h.unflipped
    ensures exists x :: x != fired && CoveredBy(s, t, s.tasks[t].ap.qid, x)
  {
    var q := s.tasks[t].ap.qid;
    var x :| Registrant(s, q, x);
    assert CoveredBy(s, t, q, x);
  }

  /** The timer finds its question still current and registered: it gives up instead of aborting. */
  ghost predicate GivesUp(s: State, x: nat)
    requires x in s.timers
  {
    var (t, q) := s.timers[x];
    Exposed(s, t) && s.tasks[t].ap.qid == q && !IsZombie(s, t, q)
  }

  /**
   A firing timer strands a task exactly when it gives up on a question nothing else
   covers: no other waiting call, and no other timer armed for it.
   */
  lemma TimerStrandsIff(s: State, x: nat)
    requires Inv(s) && LeaversArmed(s) && NoOrphan(s) && x in s.timers
    ensures NoOrphan(FireTimer(s, x)) <==>
            (GivesUp(s, x) ==> exists y :: y != x && CoveredBy(s, s.timers[x].0, s.timers[x].1, y))
  {
    var s' := FireTimer(s, x);
    var (t0, q0) := s.timers[x];
    forall y | CoveredBy(s', t0, q0, y) ensures y != x && CoveredBy(s, t0, q0, y) {
    }
    forall t | Exposed(s', t) && s.timers[x] != (t, s.tasks[t].ap.qid) ensures Covered(s', t) {
      StillCovered(s, s', t, s.tasks[t].ap.qid);
    }
    if y :| y != x && CoveredBy(s, t0, q0, y) {
      assert CoveredBy(s', t0, q0, y);
    }
  }

  lemma TimerNoOrphan(s: State, x: nat)
    requires Inv(s) && LeaversArmed(s) && NoOrphan(s) && x in s.timers && x !in s.asks
    ensures NoOrphan(FireTimer(s, x))
  {
    TimerStrandsIff(s, x);
    if GivesUp(s, x) {
      RegistrationCovers(s, s.timers[x].0, x);
    }
  }

  /** The task awaits a question that is exempt from no fault and has no parked answer. */
  ghost predicate Exposed(s: State, t: string) {
    && t in s.tasks && s.tasks[t].status == Awaiting && s.tasks[t].ap.pending == ""
    && s.tasks[t].ap.qid !in s.h.unflipped && s.tasks[t].ap.qid !in s.h.wiped
  }

  /** Only a blocking ask exposes a task; every other step finds it exposed already. */
  lemma ExposedBefore(s: State, e: Step, t: string)
    requires Exposed(Next(s, e), t)
    ensures (Exposed(s, t) && s.tasks[t] == Next(s, e).tasks[t]) ||
            CoveredBy(Next(s, e), t, Next(s, e).tasks[t].ap.qid, s.nextAsk)
  {
  }

  /** No call on an exposed question has an answer to receive. */
  lemma ExposedIsUnanswered(s: State, t: string, x: nat)
    requires Inv(s) && Exposed(s, t) && x in s.asks && s.asks[x].qid == s.tasks[t].ap.qid
    ensures !CanReceive(s, x)
  {
    FlippedWithFlips(s.h);
  }

  /** Short of a timer firing, a step ends the cover of a question only by answering it. */
  lemma CoverKept(s: State, e: Step, t: string, q: string, x: nat)
    requires AsksShape(s) && !e.TimerFires? && CoveredBy(s, t, q, x)
    requires x in s.asks && s.asks[x].qid == q ==> !CanReceive(s, x)
    ensures CoveredBy(Next(s, e), t, q, x)
  {
  }

  lemma StepNoOrphan(s: State, e: Step)
    requires Inv(s) && LeaversArmed(s) && NoOrphan(s) && PromptCancel(s, e)
    ensures NoOrphan(Next(s, e))
  {
    if e.TimerFires? && e.ask in s.timers {
      TimerNoOrphan(s, e.ask);
    } else if !e.TimerFires? {
      var s' := Next(s, e);
      forall t | Exposed(s', t) ensures Covered(s', t) {
        ExposedBefore(s, e, t);
        if Exposed(s, t) && s.tasks[t] == s'.tasks[t] {
          var x :| CoveredBy(s, t, s.tasks[t].ap.qid, x);
          if x in s.asks && s.asks[x].qid == s.tasks[t].ap.qid {
            ExposedIsUnanswered(s, t, x);
          }
          CoverKept(s, e, t, s.tasks[t].ap.qid, x);
        }
      }
    }
  }

  /**
   No orphaned ask: in every state a run reaches, an awaiting task has a parked answer,
   a call waiting on its question, or a grace timer armed for exactly that task and
   question; the exceptions are the questions whose row write failed on the fast path
   and those whose parked answer a hook exit wiped.
   */
  lemma {:induction false} NoOrphanedAsk(s0: State, steps: seq<Step>)
    requires Initial(s0) && Obeys(PromptCancel, s0, steps)
    ensures LeaversArmed(Run(s0, steps)) && NoOrphan(Run(s0, steps))
  {
    if steps != [] {
      var s, e := Run(s0, steps[..|steps| - 1]), steps[|steps| - 1];
      NoOrphanedAsk(s0, steps[..|steps| - 1]);
      RunInv(s0, steps[..|steps| - 1]);
      LeaversArmedKept(s, e);
      StepNoOrphan(s, e);
    }
  }

  /** All three exemptions are real: each of these runs ends with the task stranded. */
  lemma StrandedByLateCancel(t: string)
    ensures var asked := Next(Fresh(t), AskCall(t, "first?", "q1", true, true));
            var s := Next(Next(Next(asked, Disconnect(0)), TimerFires(0)), RunCancel(0));
            s.tasks[t].status == Awaiting && !Covered(s, t) && s.h.unflipped + s.h.wiped == {}
  {
    var s1 := Next(Fresh(t), AskCall(t, "first?", "q1", true, true));
    assert s1.asks == map[0 := Ask(t, "q1", 0, Waiting)] && s1.reg.channels == map["q1" := 0];
    var s2 := Next(s1, Disconnect(0));
    assert s2.timers == map[0 := (t, "q1")];
    var s3 := Next(s2, TimerFires(0));
    assert s3.timers == map[] && s3.tasks == s1.tasks;
    var s4 := Next(s3, RunCancel(0));
    assert s4.asks == map[] && s4.timers == map[];
  }

  lemma StrandedByHookExit(t: string)
    ensures var parked := Next(Abandoned(t), AnswerCall(t, "q1", "yes", "human", true));
            var s := Next(Next(parked, TimerFires(0)), HookExit(t));
            s.tasks[t].status == Awaiting && !Covered(s, t) && s.h.wiped == {"q1"} && s.h.unflipped == {}
  {
    var s1 := Next(Abandoned(t), AnswerCall(t, "q1", "yes", "human", true));
    assert s1.tasks[t].ap.pending == "yes" && s1.timers == map[0 := (t, "q1")] && s1.asks == map[];
    var s2 := Next(s1, TimerFires(0));
    assert s2.timers == map[] && s2.tasks == s1.tasks;
  }

  lemma StrandedByLostFlip(t: string)
    ensures var asked := Next(Fresh(t), AskCall(t, "first?", "q1", true, true));
            var s := Next(Next(Next(asked, AnswerCall(t, "q1", "yes", "human", false)), Receive(0)), RunCancel(0));
            s.tasks[t].status == Awaiting && !Covered(s, t) && s.h.unflipped == {"q1"} && s.h.wiped == {}
  {
    var s1 := Next(Fresh(t), AskCall(t, "first?", "q1", true, true));
    assert s1.asks == map[0 := Ask(t, "q1", 0, Waiting)] && s1.reg.channels == map["q1" := 0];
    var s2 := Next(s1, AnswerCall(t, "q1", "yes", "human", false));
    assert s2.reg.heap == [Channel("q1", Some("yes"))] && s2.tasks == s1.tasks;
    var s3 := Next(s2, Receive(0));
    assert s3.asks == map[0 := Ask(t, "q1", 0, Finished)];
    var s4 := Next(s3, RunCancel(0));
    assert s4.asks == map[] && s4.timers == map[];
  }

  /** What the agent sees after a lost flip: it has its answer, and its task goes on awaiting. */
  ghost function AfterLostFlip(s: State, e: Step, x: nat): State {
    Next(Next(Next(s, e), Receive(x)), RunCancel(x))
  }

  lemma AfterLostFlipState(s: State, e: Step, x: nat)
    requires LosesFlip(s, e) && Registrant(s, s.tasks[e.task].ap.qid, x) && s.asks[x].phase == Waiting
    ensures var s' := AfterLostFlip(s, e, x);
            s'.tasks == s.tasks && s'.asks == s.asks - {x} && s'.timers == s.timers
  {
    var s1 := Next(s, e);
    assert CanReceive(s1, x) && s1.asks == s.asks && s1.timers == s.timers && s1.tasks == s.tasks;
    var s2 := DoReceive(s1, x);
    assert s2.asks == s.asks[x := s.asks[x].(phase := Finished)];
    assert Next(s2, RunCancel(x)) == DoCancelAsk(s2, x);
  }

  /** Every lost flip whose answer is received strands the task exactly when no other call or timer covers it. */
  lemma LostFlipStrandsIff(s: State, e: Step, x: nat)
    requires Inv(s) && LosesFlip(s, e) && s.tasks[e.task].ap.pending == ""
    requires Registrant(s, s.tasks[e.task].ap.qid, x) && s.asks[x].phase == Waiting
    ensures var s' := AfterLostFlip(s, e, x);
            && s'.tasks == s.tasks
            && (Covered(s', e.task) <==> exists y :: y != x && CoveredBy(s, e.task, s.tasks[e.task].ap.qid, y))
  {
    hide AfterLostFlip;
    var t, q, s' := e.task, s.tasks[e.task].ap.qid, AfterLostFlip(s, e, x);
    AfterLostFlipState(s, e, x);
    assert x !in s.timers;
    forall y ensures CoveredBy(s', t, q, y) <==> y != x && CoveredBy(s, t, q, y) {
    }
    if y :| CoveredBy(s', t, q, y) {
      assert y != x && CoveredBy(s, t, q, y);
    }
    if y :| y != x && CoveredBy(s, t, q, y) {
      assert CoveredBy(s', t, q, y);
    }
  }

  // ---------- the reaper and live asks ----------

  /** A question is registered again only once every earlier call on it has run its Cancel. */
  predicate NoOverlap(s: State, e: Step) {
    (e.AskCall? && e.task in s.tasks && s.tasks[e.task].status == Awaiting && s.tasks[e.task].ap.pending == "") ==>
      forall x :: x in s.asks ==> s.asks[x].qid != s.tasks[e.task].ap.qid
  }

  ghost predicate Exclusive(s: State) {
    && (forall x, y :: x in s.asks && y in s.asks && x != y ==> s.asks[x].qid != s.asks[y].qid)
    && (forall x :: x in s.asks && s.asks[x].phase == Waiting ==> Registrant(s, s.asks[x].qid, x))
  }

  lemma AskExclusive(s: State, e: Step)
    requires AsksShape(s) && AwaitingOwns(s) && Exclusive(s) && NoOverlap(s, e) && e.AskCall?
    ensures Exclusive(Next(s, e))
  {
  }

  lemma OtherExclusive(s: State, e: Step)
    requires Exclusive(s) && !e.AskCall?
    ensures Exclusive(Next(s, e))
  {
  }

  lemma {:induction false} RunExclusive(s0: State, steps: seq<Step>)
    requires Initial(s0) && Obeys(NoOverlap, s0, steps)
    ensures Exclusive(Run(s0, steps))
  {
    if steps != [] {
      RunExclusive(s0, steps[..|steps| - 1]);
      RunInv(s0, steps[..|steps| - 1]);
      var s, e := Run(s0, steps[..|steps| - 1]), steps[|steps| - 1];
      if e.AskCall? {
        AskExclusive(s, e);
      } else {
        OtherExclusive(s, e);
      }
    }
  }

  /**
   A hook exit that wipes a parked answer leaves the task covered exactly while a grace
   timer is armed for that very question: a parked answer means that no call waits.
   */
  lemma HookExitStrandsIff(s0: State, steps: seq<Step>, t: string)
    requires Initial(s0) && Obeys(FaultFree, s0, steps) && Obeys(NoOverlap, s0, steps)
    requires t in Run(s0, steps).tasks && Run(s0, steps).tasks[t].status == Awaiting
    requires Run(s0, steps).tasks[t].ap.pending != ""
    ensures var s := Run(s0, steps);
            Covered(Next(s, HookExit(t)), t) <==> exists x :: x in s.timers && s.timers[x] == (t, s.tasks[t].ap.qid)
  {
    var s := Run(s0, steps);
    var q, s' := s.tasks[t].ap.qid, Next(s, HookExit(t));
    FaultsRecordedExactly(s0, steps);
    ParkedMeansNoWaiter(s0, steps, t);
    RunExclusive(s0, steps);
    forall x ensures CoveredBy(s', t, q, x) <==> x in s.timers && s.timers[x] == (t, q) {
    }
    if x :| x in s.timers && s.timers[x] == (t, q) {
      assert CoveredBy(s', t, q, x);
    }
  }

  ghost predicate Reaps(s: State, x: nat, t: string) {
    x in s.timers && t in s.tasks && s.tasks[t].status == Awaiting && FireTimer(s, x).tasks[t].status == Aborted
  }

  /** A call waiting for an awaiting task keeps that task's current question registered. */
  lemma WaitingIsRegistered(s: State, t: string, y: nat)
    requires Inv(s) && Exclusive(s) && t in s.tasks && s.tasks[t].status == Awaiting
    requires y in s.asks && s.asks[y].task == t && s.asks[y].phase == Waiting
    ensures s.tasks[t].ap.qid in s.reg.channels
  {
    var q := s.asks[y].qid;
    assert Registrant(s, q, y);
    assert q in s.reg.qidByTask.Values;
    var t' :| t' in s.reg.qidByTask && s.reg.qidByTask[t'] == q;
    assert t' == t;
  }

  /**
   Reaper soundness over whole runs: a task the timer aborts has no call waiting on any
   question, no parked answer, and is still on the very question the timer was armed for.
   */
  lemma ReaperSparesTheLiving(s0: State, steps: seq<Step>, x: nat, t: string)
    requires Initial(s0) && Obeys(NoOverlap, s0, steps)
    ensures var s := Run(s0, steps);
            Reaps(s, x, t) ==>
            && s.timers[x] == (t, s.tasks[t].ap.qid) && s.tasks[t].ap.pending == ""
            && forall y :: y in s.asks && s.asks[y].task == t ==> s.asks[y].phase != Waiting
  {
    var s := Run(s0, steps);
    RunExclusive(s0, steps);
    RunInv(s0, steps);
    if t in s.tasks && s.tasks[t].status == Awaiting {
      forall y | y in s.asks && s.asks[y].task == t && s.asks[y].phase == Waiting
        ensures s.tasks[t].ap.qid in s.reg.channels
      {
        WaitingIsRegistered(s, t, y);
      }
    }
  }

  /** Step e is the Cancel of a call on q that is done waiting. */
  ghost predicate Cancels(s: State, e: Step, q: string) {
    e.RunCancel? && e.ask in s.asks && s.asks[e.ask].phase != Waiting && s.asks[e.ask].qid == q
  }

  /** Of all the steps only such a Cancel ends a registration. */
  lemma RegistrationLostIff(s: State, e: Step, q: string)
    requires RegistryShape(s) && q in s.reg.channels
    ensures q !in Next(s, e).reg.channels <==> Cancels(s, e, q)
  {
  }

  /**
   A call goes on waiting on a registered question with a timer armed for it.  One step
   puts it at the reaper's mercy exactly if that step is another call's Cancel.
   */
  lemma LiveAskReapedIff(s: State, e: Step, x: nat, t: string, y: nat)
    requires Inv(s) && y in s.asks && s.asks[y].phase == Waiting && s.asks[y].qid in s.reg.channels
    requires Exposed(Next(s, e), t) && Next(s, e).tasks[t].ap.qid == s.asks[y].qid
    requires x in Next(s, e).timers && Next(s, e).timers[x] == (t, s.asks[y].qid)
    ensures Reaps(Next(s, e), x, t) <==> Cancels(s, e, s.asks[y].qid)
    ensures Reaps(Next(s, e), x, t) ==> e.ask != y && y in Next(s, e).asks && Next(s, e).asks[y] == s.asks[y]
  {
    hide Consistent, Tracked, Registered, AsksShape, AwaitingOwns, RecordsOwned;
    RegistrationLostIff(s, e, s.asks[y].qid);
  }

  /** Over whole runs: a question registered once and reaped later was cancelled by some call on the way. */
  lemma {:induction false} ReapedAfterCancel(s: State, steps: seq<Step>, x: nat, t: string, q: string)
    requires Inv(s) && q in s.reg.channels
    requires Reaps(Run(s, steps), x, t) && Run(s, steps).tasks[t].ap.qid == q
    ensures exists k :: 0 <= k < |steps| && Cancels(Run(s, steps[..k]), steps[k], q)
  {
    assert q !in Run(s, steps).reg.channels;
    UnregisteredAfterCancel(s, steps, q);
  }

  lemma {:induction false} UnregisteredAfterCancel(s: State, steps: seq<Step>, q: string)
    requires Inv(s) && q in s.reg.channels && q !in Run(s, steps).reg.channels
    ensures exists k :: 0 <= k < |steps| && Cancels(Run(s, steps[..k]), steps[k], q)
  {
    hide Next, Consistent, Tracked, Registered, AsksShape, AwaitingOwns, RecordsOwned;
    var n := |steps| - 1;
    var mid := Run(s, steps[..n]);
    if q in mid.reg.channels {
      RunKeepsInv(s, steps[..n]);
      RegistrationLostIff(mid, steps[n], q);
    } else {
      UnregisteredAfterCancel(s, steps[..n], q);
      var k :| 0 <= k < n && Cancels(Run(s, steps[..n][..k]), steps[..n][k], q);
      assert steps[..n][..k] == steps[..k] && steps[..n][k] == steps[k];
    }
  }

  /** Without the rule that happens: a stale Cancel removes the re-attached call's registration. */
  lemma StaleCancelKillsLiveAsk(t: string)
    ensures var ask := AskCall(t, "first?", "q1", true, true);
            var s := Next(Next(Next(Next(Fresh(t), ask), Disconnect(0)), ask), RunCancel(0));
            Reaps(s, 0, t) && 1 in s.asks && s.asks[1] == Ask(t, "q1", 1, Waiting)
  {
    var ask := AskCall(t, "first?", "q1", true, true);
    var s1 := Next(Fresh(t), ask);
    assert s1.asks == map[0 := Ask(t, "q1", 0, Waiting)] && s1.reg.qidByTask == map[t := "q1"];
    var s2 := Next(s1, Disconnect(0));
    var s3 := Next(s2, ask);
    assert s3.asks == map[0 := Ask(t, "q1", 0, Leaving), 1 := Ask(t, "q1", 1, Waiting)];
    assert s3.timers == map[0 := (t, "q1")] && s3.reg.channels == map["q1" := 1];
    var s4 := Next(s3, RunCancel(0));
    assert s4.reg.channels == map[];
  }
}
