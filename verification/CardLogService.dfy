/**
 The calls of internal/api/suggestion_accept.go and internal/api/queue_sweep.go as they run:
 one store call after another on a transaction's own copy, any of which may fail.
 */
module CardLogService {
  import opened Wrappers
  import opened CardLog
  import opened CardLogEffects
  import opened CardLogRuns

  datatype Answer = AnswerAccept | AnswerReject

  /** The store calls a transaction makes after it has read the task. */
  datatype StoreCall = CreateAnswered | GetTriage | UpdateTask | CreateVerb | UpsertWake | Unlink | UpsertStripped

  class CardService {
    var cards: map<string, Card>

    constructor (cards: map<string, Card>)
      ensures this.cards == cards
    {
      this.cards := cards;
    }

    /** `failing` are the store calls that fail this time. */
    method ApplyAnswered(id: string, answer: Answer, human: bool, failing: set<StoreCall>)
      returns (r: Result<Status, nat>)
      modifies this
      ensures r.Err? ==> cards == old(cards)
      ensures r.Ok? ==>
                && id in old(cards)
                && Outcome(old(cards)[id], if answer == AnswerAccept then Accept else Reject).Ok?
                && cards == old(cards)[id := Next(old(cards)[id], if answer == AnswerAccept then Accept else Reject)]
                && r.value == cards[id].status
      ensures answer == AnswerAccept && !human ==> r == Err(403)
      ensures (answer == AnswerReject || human) && id !in old(cards) ==> r == Err(404)
      ensures failing == {} && id in old(cards) && (answer == AnswerReject || human) ==>
                match Outcome(old(cards)[id], if answer == AnswerAccept then Accept else Reject)
                case Err(code) => r == Err(code)
                case Ok(_) => r.Ok?
    {
      if answer == AnswerAccept && !human {
        return Err(403);
      }
      if id !in cards {
        return Err(404);
      }
      var tx := cards[id];
      if CreateAnswered in failing {
        return Err(500);
      }
      tx := Record(tx, "answered", tx.status, tx.status);
      if answer == AnswerReject {
        r := StripSuggestion(id, tx, failing);
        return;
      }
      if GetTriage in failing {
        return Err(500);
      }
      var current := Current(tx.triage);
      if current.None? {
        return Err(409);
      }
      var sugg := current.value;
      if sugg.params.BadParams? {
        return Err(500);
      }
      var verb := NormalizeVerb(sugg.verb);
      if !IsCardTransition(verb) {
        return Err(409);
      }
      if verb == "go" {
        cards := cards[id := tx];
        return Ok(tx.status);
      }
      var to := Transition(tx.status, verb);
      if to.None? {
        return Err(409);
      }
      if UpdateTask in failing || CreateVerb in failing {
        return Err(500);
      }
      tx := Record(tx.(status := to.value), verb, tx.status, to.value);
      if verb == "park" {
        if sugg.params.wakeAt.Unreadable? {
          return Err(400);
        }
        if UpsertWake in failing {
          return Err(500);
        }
        tx := ParkWake(tx, if sugg.params.wakeAt.At? then Some(sugg.params.wakeAt.time) else None,
            sugg.params.wakeTask);
      } else if verb == "drop" {
        if Unlink in failing {
          return Err(500);
        }
        tx := tx.(identities := {});
      }
      r := StripSuggestion(id, tx, failing);
    }

    /** applyAnsweredSideEffect on the transaction's copy, and the commit. */
    method StripSuggestion(id: string, tx: Card, failing: set<StoreCall>) returns (r: Result<Status, nat>)
      modifies this
      ensures r.Err? ==> cards == old(cards) && r.error == 500
      ensures r.Ok? ==> StripCard(tx).Ok? && cards == old(cards)[id := StripCard(tx).value] && r.value == tx.status
      ensures r.Ok? ==>
                && (tx.triage.Some? ==> Readable(tx.triage.value))
                && var t := if tx.triage.None? then None else Some(Cleared(tx.triage.value));
                   cards == old(cards)[id := Card(tx.status, tx.log, t, tx.identities)]
      ensures failing == {} ==> (r.Ok? <==> StripCard(tx).Ok?)
      ensures r.Ok? <==>
              && GetTriage !in failing
              && (tx.triage.None? || (Readable(tx.triage.value) && UpsertStripped !in failing))
    {
      if GetTriage in failing {
        return Err(500);
      }
      if tx.triage.None? {
        cards := cards[id := tx];
        return Ok(tx.status);
      }
      var stripped := Strip(tx.triage.value);
      if stripped.None? || UpsertStripped in failing {
        return Err(500);
      }
      cards := cards[id := tx.(triage := stripped)];
      return Ok(tx.status);
    }

    /** recordWakeDue; `ok` is false when a store call fails. */
    method RecordWakeDue(id: string, ok: bool) returns (recorded: bool)
      requires id in cards
      modifies this
      ensures recorded <==> ok && old(cards)[id].triage.Some?
      ensures cards == if recorded then old(cards)[id := Next(old(cards)[id], WakeDue)] else old(cards)
    {
      var tx := cards[id];
      if !ok || tx.triage.None? {
        return false;
      }
      tx := tx.(triage := Some(tx.triage.value.(wakeAt := None, wakeTask := "")));
      tx := Record(tx, "wake_due", tx.status, tx.status);
      cards := cards[id := tx];
      return true;
    }

    /** SweepWake over the listed parked cards; writes fail for the ids in `failing`. */
    method SweepWake(parked: seq<string>, now: int, lookup: string -> Lookup, failing: set<string>)
      returns (woken: seq<string>)
      requires forall id :: id in parked <==> id in cards && cards[id].status == Parked
      requires forall i, j :: 0 <= i < j < |parked| ==> parked[i] != parked[j]
      modifies this
      ensures cards.Keys == old(cards).Keys
      ensures forall id :: id in cards ==>
                cards[id] == if id in failing then old(cards)[id] else Tick(old(cards), now, lookup)[id]
      ensures forall id :: id in woken <==> id in old(cards) && id !in failing && Due(old(cards)[id], now, lookup)
    {
      woken := [];
      var i := 0;
      while i < |parked|
        invariant 0 <= i <= |parked| && cards.Keys == old(cards).Keys
        invariant forall id :: id in cards ==>
                    cards[id] == if id in parked[..i] && id !in failing then Tick(old(cards), now, lookup)[id]
                                 else old(cards)[id]
        invariant forall id :: id in woken <==> id in parked[..i] && id !in failing && Due(old(cards)[id], now, lookup)
      {
        var id := parked[i];
        assert id !in parked[..i];
        assert parked[..i + 1] == parked[..i] + [id];
        if Due(cards[id], now, lookup) {
          var recorded := RecordWakeDue(id, id !in failing);
          if recorded {
            woken := woken + [id];
          }
        }
        i := i + 1;
      }
    }

    /** recordVanishedChildClosedOnParent; `ok` is false when a store call fails. */
    method RecordVanishedChild(id: string, ref: string, ok: bool)
      requires id in cards
      modifies this
      ensures cards == if ok then old(cards)[id := Next(old(cards)[id], Vanished(ref))] else old(cards)
    {
      if !ok {
        return;
      }
      var tx := cards[id];
      if tx.triage.None? || tx.triage.value.detail.Corrupt? || tx.triage.value.detail.children.None? {
        return;
      }
      var children := CloseFirst(tx.triage.value.detail.children.value, ref);
      if children.None? {
        return;
      }
      var t := tx.triage.value.(detail := tx.triage.value.detail.(children := children));
      cards := cards[id := Record(tx.(triage := Some(t)), "child_closed", tx.status, tx.status)];
    }

    /** MarkDetailChildClosed's loop. */
    method CloseFirst(children: seq<Child>, ref: string) returns (r: Option<seq<Child>>)
      ensures r == MarkClosed(children, ref)
    {
      for i := 0 to |children|
        invariant forall k :: 0 <= k < i ==> !IsOpenRef(children[k], ref)
      {
        if IsOpenRef(children[i], ref) {
          MarkClosedAt(children, ref, i);
          return Some(children[i := children[i].(status := Closed)]);
        }
      }
      MarkClosedAt(children, ref, |children|);
      return None;
    }
  }

  /** Only the first open entry of the reference changes. */
  lemma {:induction false} MarkClosedAt(children: seq<Child>, ref: string, i: nat)
    requires i <= |children| && forall k :: 0 <= k < i ==> !IsOpenRef(children[k], ref)
    requires i < |children| ==> IsOpenRef(children[i], ref)
    ensures MarkClosed(children, ref)
         == if i == |children| then None else Some(children[i := children[i].(status := Closed)])
  {
    if i > 0 {
      MarkClosedAt(children[1..], ref, i - 1);
      if i < |children| {
        var changed := children[i].(status := Closed);
        assert [children[0]] + children[1..][i - 1 := changed] == children[i := changed];
      }
    } else if children != [] {
      var changed := children[0].(status := Closed);
      assert [changed] + children[1..] == children[0 := changed];
    }
  }
}
