/**
 The in-memory registry behind `boid task ask` (internal/api/blocking_ask_registry.go).

 Go channels have identity: a re-attach makes a new channel while an earlier waiter
 keeps the one it looked up.  `heap` therefore holds every channel ever made, and a
 channel is named by its position there.
 */
module AskRegistry {
  import opened Wrappers

  /** A one-slot buffered channel, tagged with the question it was made for. */
  datatype Channel = Channel(qid: string, buffer: Option<string>)

  datatype Registry = Registry(
    channels: map<string, nat>,
    qidByTask: map<string, string>,
    heap: seq<Channel>)

  const Empty := Registry(map[], map[], [])

  /** Whether Register turns the call down because another question is pending. */
  predicate Refuses(r: Registry, taskID: string, qid: string) {
    taskID in r.qidByTask && r.qidByTask[taskID] != qid
  }

  function RegisterSpec(r: Registry, taskID: string, qid: string): Registry {
    if Refuses(r, taskID, qid) then r
    else Registry(r.channels[qid := |r.heap|], r.qidByTask[taskID := qid], r.heap + [Channel(qid, None)])
  }

  /** Whether Notify hands the answer over: a registered channel with room in it. */
  predicate Accepts(r: Registry, qid: string) {
    qid in r.channels && r.channels[qid] < |r.heap| && r.heap[r.channels[qid]].buffer.None?
  }

  function NotifySpec(r: Registry, qid: string, answer: string): Registry {
    if Accepts(r, qid)
    then r.(heap := r.heap[r.channels[qid] := r.heap[r.channels[qid]].(buffer := Some(answer))])
    else r
  }

  function CancelSpec(r: Registry, qid: string): Registry {
    r.(channels := r.channels - {qid},
       qidByTask := map t | t in r.qidByTask && r.qidByTask[t] != qid :: r.qidByTask[t])
  }

  /** The receive half of Wait: take what the channel holds. */
  function DrainSpec(r: Registry, ch: nat): Registry {
    if ch < |r.heap| then r.(heap := r.heap[ch := r.heap[ch].(buffer := None)]) else r
  }

  /**
   What every registry keeps: a question owns a channel exactly when some task points
   at it, and a registered channel was made for the question it is registered under.
   */
  ghost predicate Consistent(r: Registry) {
    && r.channels.Keys == r.qidByTask.Values
    && (forall q :: q in r.channels ==> r.channels[q] < |r.heap| && r.heap[r.channels[q]].qid == q)
  }

  datatype Call =
    | DoRegister(taskID: string, qid: string)
    | DoNotify(qid: string, answer: string)
    | DoCancel(qid: string)
    | DoDrain(ch: nat)

  function Apply(r: Registry, c: Call): Registry {
    match c
    case DoRegister(t, q) => RegisterSpec(r, t, q)
    case DoNotify(q, a) => NotifySpec(r, q, a)
    case DoCancel(q) => CancelSpec(r, q)
    case DoDrain(ch) => DrainSpec(r, ch)
  }

  function ApplyAll(r: Registry, calls: seq<Call>): Registry {
    if calls == [] then r else Apply(ApplyAll(r, calls[..|calls| - 1]), calls[|calls| - 1])
  }

  lemma RegisterConsistent(r: Registry, taskID: string, qid: string)
    requires Consistent(r)
    ensures Consistent(RegisterSpec(r, taskID, qid))
  {
    var r' := RegisterSpec(r, taskID, qid);
    if !Refuses(r, taskID, qid) {
      forall q ensures q in r'.channels <==> q in r'.qidByTask.Values {
        if q in r'.channels && q != qid {
          var t :| t in r.qidByTask && r.qidByTask[t] == q;
          assert t in r'.qidByTask && r'.qidByTask[t] == q;
        }
        assert r'.qidByTask[taskID] == qid;
      }
    }
  }

  lemma CancelConsistent(r: Registry, qid: string)
    requires Consistent(r)
    ensures Consistent(CancelSpec(r, qid))
  {
    var r' := CancelSpec(r, qid);
    forall q ensures q in r'.channels <==> q in r'.qidByTask.Values {
      if q in r'.channels {
        var t :| t in r.qidByTask && r.qidByTask[t] == q;
        assert t in r'.qidByTask && r'.qidByTask[t] == q;
      }
    }
  }

  /** Any sequence of calls from an empty registry leaves it consistent. */
  lemma {:induction false} EveryRunConsistent(calls: seq<Call>)
    ensures Consistent(ApplyAll(Empty, calls))
  {
    if calls != [] {
      var before := ApplyAll(Empty, calls[..|calls| - 1]);
      EveryRunConsistent(calls[..|calls| - 1]);
      match calls[|calls| - 1]
      case DoRegister(t, q) => RegisterConsistent(before, t, q);
      case DoNotify(q, a) =>
      case DoCancel(q) => CancelConsistent(before, q);
      case DoDrain(ch) =>
    }
  }

  /**
   After an accepted Register the question can be answered exactly once: a first Notify
   lands in the new channel, a second is refused, and a Cancel ends it for good.
   */
  lemma RegisteredQuestionTakesOneAnswer(r: Registry, taskID: string, qid: string, a: string, b: string)
    requires !Refuses(r, taskID, qid)
    ensures Accepts(RegisterSpec(r, taskID, qid), qid)
    ensures var n := NotifySpec(RegisterSpec(r, taskID, qid), qid, a);
            && n.heap[n.channels[qid]] == Channel(qid, Some(a))
            && NotifySpec(n, qid, b) == n
            && !Accepts(CancelSpec(n, qid), qid)
            && !Refuses(CancelSpec(n, qid), taskID, qid)
  {
  }

  class BlockingAskRegistry {
    var channels: map<string, nat>
    var qidByTask: map<string, string>
    var heap: seq<Channel>

    ghost function State(): Registry
      reads this
    {
      Registry(channels, qidByTask, heap)
    }

    constructor ()
      ensures State() == Empty
    {
      channels, qidByTask, heap := map[], map[], [];
    }

    method Register(taskID: string, qid: string) returns (ok: bool)
      modifies this
      ensures ok == !old(Refuses(State(), taskID, qid))
      ensures State() == old(RegisterSpec(State(), taskID, qid))
    {
      if taskID in qidByTask && qidByTask[taskID] != qid {
        return false;
      }
      channels := channels[qid := |heap|];
      heap := heap + [Channel(qid, None)];
      qidByTask := qidByTask[taskID := qid];
      return true;
    }

    method Notify(qid: string, answer: string) returns (accepted: bool)
      modifies this
      ensures accepted == old(Accepts(State(), qid))
      ensures State() == old(NotifySpec(State(), qid, answer))
    {
      if qid !in channels || channels[qid] >= |heap| {
        return false;
      }
      var ch := channels[qid];
      match heap[ch].buffer
      case None =>
        heap := heap[ch := heap[ch].(buffer := Some(answer))];
        return true;
      case Some(_) =>
        return false;
    }

    /** Deletes the channel and then, one by one, the task entries that point at it. */
    method Cancel(qid: string)
      modifies this
      ensures State() == old(CancelSpec(State(), qid))
    {
      channels := channels - {qid};
      var todo := qidByTask.Keys;
      while todo != {}
        invariant todo <= old(qidByTask).Keys
        invariant channels == old(channels) - {qid} && heap == old(heap)
        invariant qidByTask ==
                  map t | t in old(qidByTask) && (t in todo || old(qidByTask)[t] != qid) :: old(qidByTask)[t]
        decreases todo
      {
        var t :| t in todo;
        if qidByTask[t] == qid {
          qidByTask := qidByTask - {t};
        }
        todo := todo - {t};
      }
    }

    method Has(qid: string) returns (registered: bool)
      ensures registered <==> qid in State().channels
    {
      registered := qid in channels;
    }

    /** The lookup Wait performs under the lock before it blocks. */
    method Lookup(qid: string) returns (ch: Option<nat>)
      ensures ch == if qid in State().channels then Some(State().channels[qid]) else None
    {
      ch := if qid in channels then Some(channels[qid]) else None;
    }

    /** The receive arm of Wait's select: enabled only when the channel holds an answer. */
    method Receive(ch: nat) returns (answer: string)
      requires ch < |heap| && heap[ch].buffer.Some?
      modifies this
      ensures answer == old(heap[ch].buffer.value)
      ensures State() == old(DrainSpec(State(), ch))
    {
      answer := heap[ch].buffer.value;
      heap := heap[ch := heap[ch].(buffer := None)];
    }
  }
}
