/**
 The slot's three actors in the source's form: a human command
 (internal/api/card_command_launcher.go), the automatic dispatcher and its sweep
 (internal/api/card_request_auto_dispatch.go) and the operator's forced release
 (internal/api/card_request_release_handler.go).  Each call is proved to be a short run
 of ledger transactions, so everything true of all runs is true of them.
 */
module CardDispatch {
  import opened Wrappers
  import opened CardRequests
  import opened CardSlotRuns
  import opened CardRequestEffects
  import AttachmentNames

  const INSTRUCTION_MAX_BYTES: nat := 10 * 1024 * 1024
  const REASON_MAX_BYTES: nat := 4096

  datatype RunResult =
    | Refused(code: nat)
    | Occupied(requestID: string, targetKind: string, targetID: string, instruction: string)
    | Started(newRequest: string, launcherJob: string)

  /** What the world answers: which launches start, which failure writes land, and new job ids. */
  datatype World = World(startOk: string -> bool, releaseOk: string -> bool, newJob: string -> string)

  datatype DispatchResult = Skipped | Launched(request: string) | DispatchFailed | WriteFailed

  /** The declared commands of a card's project, or nothing while its meta is unavailable. */
  type Declared = Option<set<string>>

  lemma RunOne(s: Ledger, e: Step)
    ensures Run(s, [e]) == Next(s, e)
  {
    assert [e][..0] == [];
    assert Run(s, []) == s;
  }

  lemma RunTwo(s: Ledger, e: Step, f: Step)
    ensures Run(s, [e, f]) == Next(Next(s, e), f)
  {
    assert [e, f][..1] == [e];
    RunOne(s, e);
  }

  lemma {:induction false} RunConcat(s: Ledger, a: seq<Step>, b: seq<Step>)
    ensures Run(s, a + b) == Run(Run(s, a), b)
  {
    if b == [] {
      assert a + b == a;
    } else {
      RunConcat(s, a, b[..|b| - 1]);
      assert (a + b)[..|a + b| - 1] == a + b[..|b| - 1];
    }
  }

  function LaunchedCommand(s: Ledger, card: string): string {
    match Oldest(s.rows, card) case None => "" case Some(k) => if k < |s.rows| then s.rows[k].command else ""
  }

  predicate IsSibling(r: Request, id: string) {
    r.foldedInto == id && r.status == Folded
  }

  predicate HasTarget(r: Request) {
    r.targetKind != "" && r.targetID != ""
  }

  /** The checks before the reservation: instruction size, card, and a declared command of that name. */
  predicate Admitted(s: Ledger, card: string, command: string, instruction: string, declared: Declared) {
    AttachmentNames.ByteLen(instruction) <= INSTRUCTION_MAX_BYTES && card in s.cards && declared.Some? &&
        command in declared.value
  }

  /** The dispatcher will claim this card: its oldest request's command is declared and the slot can be had. */
  predicate Ready(s: Ledger, card: string, declared: Declared, job: string) {
    && Oldest(s.rows, card).Some? && Oldest(s.rows, card).value < |s.rows| && card in s.cards && declared.Some?
    && s.rows[Oldest(s.rows, card).value].command in declared.value
    && CanClaim(s, card, s.rows[Oldest(s.rows, card).value].command, job)
  }

  /** Nothing but this card's own rows changed. */
  ghost predicate OthersKept(s: Ledger, s': Ledger, card: string) {
    && |s'.rows| == |s.rows| && s'.cards == s.cards && s'.barriers == s.barriers
    && (forall i :: 0 <= i < |s.rows| ==> s'.rows[i].card == s.rows[i].card && s'.rows[i].id == s.rows[i].id)
    && (forall i :: 0 <= i < |s.rows| && s.rows[i].card != card ==> s'.rows[i] == s.rows[i])
  }

  /** The two ledgers tell the same about one card. */
  ghost predicate AgreeOn(s: Ledger, s': Ledger, card: string) {
    && |s'.rows| == |s.rows| && s'.cards == s.cards && s'.barriers == s.barriers
    && (forall i :: 0 <= i < |s.rows| ==> s'.rows[i].card == s.rows[i].card)
    && (forall i :: 0 <= i < |s.rows| && s.rows[i].card == card ==> s'.rows[i] == s.rows[i])
  }

  lemma AgreeSelf(s: Ledger)
    ensures forall c :: AgreeOn(s, s, c)
  {
  }

  lemma StillAgrees(s: Ledger, mid: Ledger, s': Ledger, card: string, c: string)
    requires AgreeOn(s, mid, c) && OthersKept(mid, s', card) && c != card
    ensures AgreeOn(s, s', c)
  {
  }

  lemma {:induction false} SameOldest(s: Ledger, s': Ledger, card: string, i: nat)
    requires AgreeOn(s, s', card) && i <= |s.rows|
    ensures OldestFrom(s.rows, card, i) == OldestFrom(s'.rows, card, i)
    decreases |s.rows| - i
  {
    if i < |s.rows| {
      SameOldest(s, s', card, i + 1);
    }
  }

  /** Whether a card is dispatched depends on that card alone. */
  lemma SameReady(s: Ledger, s': Ledger, card: string, declared: Declared, job: string)
    requires AgreeOn(s, s', card)
    ensures Ready(s, card, declared, job) <==> Ready(s', card, declared, job)
  {
    hide OldestFrom;
    SameOldest(s, s', card, 0);
    OldestIsQueued(s.rows, card, 0);
    assert SlotTaken(s.rows, card) <==> SlotTaken(s'.rows, card) by {
      assert forall i :: 0 <= i < |s.rows| && (s.rows[i].card == card || s'.rows[i].card == card) ==>
          s'.rows[i] == s.rows[i];
    }
  }

  lemma ClaimKeepsOthers(s: Ledger, card: string, command: string, job: string)
    ensures OthersKept(s, Claim(s, card, command, job), card)
  {
  }

  /** What a request carries belongs to its own card, so failing it stays within the card. */
  lemma FailKeepsOthers(s: Ledger, id: string, card: string)
    requires SlotInv(s.rows) && exists k :: 0 <= k < |s.rows| && s.rows[k].id == id && s.rows[k].card == card
    ensures OthersKept(s, Fail(s, id), card)
  {
    var k :| 0 <= k < |s.rows| && s.rows[k].id == id && s.rows[k].card == card;
    forall i | 0 <= i < |s.rows| && s.rows[i].card != card ensures FailRow(s.rows[i], id, Queued) == s.rows[i] {
      assert i != k;
      if s.rows[i].status == Folded {
        var p :| 0 <= p < |s.rows| && RidesOn(s.rows, i, p);
        assert p != k;
      }
    }
  }

  class SlotService {
    var db: Ledger

    constructor (cards: map<string, Card>)
      ensures db == Init(cards)
    {
      db := Init(cards);
    }

    /** currentOccupantResult: the first active row of the card. */
    method CurrentOccupant(card: string, instruction: string) returns (r: RunResult)
      requires SlotTaken(db.rows, card)
      ensures exists i :: 0 <= i < |db.rows| && db.rows[i].card == card && IsActive(db.rows[i])
                          && r == Occupied(db.rows[i].id, db.rows[i].targetKind, db.rows[i].targetID, instruction)
    {
      var i := 0;
      while !(db.rows[i].card == card && IsActive(db.rows[i]))
        invariant 0 <= i < |db.rows|
        invariant forall j :: 0 <= j < i ==> !(db.rows[j].card == card && IsActive(db.rows[j]))
        invariant exists k :: i <= k < |db.rows| && db.rows[k].card == card && IsActive(db.rows[k])
        decreases |db.rows| - i
      {
        i := i + 1;
      }
      return Occupied(db.rows[i].id, db.rows[i].targetKind, db.rows[i].targetID, instruction);
    }

    /** newID and newJob stand for the generated ids. */
    method RunCardCommandAsHuman(card: string, command: string, instruction: string, declared: Declared,
                                 newID: string, newJob: string, startOk: bool, releaseOk: bool)
      returns (r: RunResult, ghost steps: seq<Step>)
      requires SlotInv(db.rows) && newJob != "" && FreshId(db, newID)
      modifies this
      ensures db == Run(old(db), steps)
      ensures r.Started? <==>
              Admitted(old(db), card, command, instruction, declared) && Usable(old(db), card)
              && old(db).cards[card].openChildren == 0 && NoActiveRow(old(db), card) && startOk
      ensures r.Occupied? <==>
              Admitted(old(db), card, command, instruction, declared) && Usable(old(db), card)
              && (old(db).cards[card].openChildren > 0 || !NoActiveRow(old(db), card))
      ensures r.Occupied? && old(db).cards[card].openChildren > 0 ==>
                var child := old(db).cards[card].liveChild;
                r == Occupied("", if child == "" then "" else "task", child, instruction)
      ensures r.Occupied? && old(db).cards[card].openChildren == 0 ==>
                exists i :: 0 <= i < |db.rows| && db.rows[i].card == card && db.rows[i].status in {Launching, Attached}
                            && r == Occupied(db.rows[i].id, db.rows[i].targetKind, db.rows[i].targetID, instruction)
      ensures r.Occupied? ==> db.rows == old(db).rows && card !in db.barriers
      ensures r.Refused? && (steps == [] || r.code != 500) ==> db == old(db)
      ensures AttachmentNames.ByteLen(instruction) > 10485760 ==> r == Refused(400)
      ensures AttachmentNames.ByteLen(instruction) <= 10485760 && card !in old(db).cards ==> r == Refused(404)
      ensures AttachmentNames.ByteLen(instruction) <= 10485760 && card in old(db).cards ==>
                && (declared.None? || declared.value == {} ==> r == Refused(400))
                && (declared.Some? && declared.value != {} && command !in declared.value ==> r == Refused(404))
      ensures Admitted(old(db), card, command, instruction, declared) && !Usable(old(db), card) ==>
                r == Refused(if old(db).cards[card].status in {CardDone, Dropped} then 409 else 500)
      ensures r.Started? ==>
                && r.newRequest == newID && r.launcherJob == newJob
                && db.rows == old(db).rows + [Request(newID, card, command, "", Launching, newJob, "", "", "")]
                && card !in db.barriers
      ensures !startOk && steps != [] && r.Refused? ==>
                var status := if releaseOk then Failed else Launching;
                db.rows == old(db).rows + [Request(newID, card, command, "", status, newJob, "", "", "")]
    {
      steps := [];
      if AttachmentNames.ByteLen(instruction) > INSTRUCTION_MAX_BYTES {
        return Refused(400), [];
      }
      if card !in db.cards {
        return Refused(404), [];
      }
      if declared.None? || declared.value == {} {
        return Refused(400), [];
      }
      if command !in declared.value {
        return Refused(404), [];
      }
      ReservedIff(db, card);
      var reservation := Reserve(db, card);
      if reservation.Abort? {
        return Refused(reservation.code), [];
      }
      var e := DoReserve(card, command, newID, newJob);
      db := HumanReserve(db, card, command, newID, newJob);
      RunOne(old(db), e);
      match reservation {
        case OccupiedByChild(child) =>
          return Occupied("", if child == "" then "" else "task", child, instruction), [e];
        case OccupiedByRequest =>
          r := CurrentOccupant(card, instruction);
          return r, [e];
        case _ =>
      }
      if startOk {
        return Started(newID, newJob), [e];
      }
      if !releaseOk {
        return Refused(500), [e];
      }
      ghost var reserved := db;
      db := Fail(db, newID);
      RunTwo(old(db), e, DoFail(newID));
      NewRowFails(old(db), reserved, newID);
      return Refused(500), [e, DoFail(newID)];
    }

    /** dispatchQueuedCardRequest: peek, resolve the command, claim, start. */
    method DispatchQueuedCardRequest(card: string, declared: Declared, w: World)
      returns (r: DispatchResult, ghost steps: seq<Step>)
      requires SlotInv(db.rows) && w.newJob(card) != ""
      modifies this
      ensures db == Run(old(db), steps) && SlotInv(db.rows)
      ensures r.Launched? <==> Ready(old(db), card, declared, w.newJob(card)) && w.startOk(card)
      ensures OthersKept(old(db), db, card)
      ensures r.Launched? ==>
                && card !in old(db).barriers && Eligible(old(db), card) && !SlotTaken(old(db).rows, card)
                && steps == [DoClaim(card, LaunchedCommand(old(db), card), w.newJob(card))]
                && SlotTaken(db.rows, card) && w.startOk(card)
      ensures r.DispatchFailed? ==>
                !w.startOk(card) && DoClaim(card, LaunchedCommand(old(db), card), w.newJob(card)) in steps
      ensures r.DispatchFailed? && w.releaseOk(card) ==> !SlotTaken(db.rows, card)
      ensures declared.Some? && card in old(db).cards && Oldest(old(db).rows, card).Some? ==>
                var head := Oldest(old(db).rows, card).value;
                && head < |old(db).rows|
                && (r.WriteFailed? <==> old(db).rows[head].command !in declared.value && !w.releaseOk(card))
                && (old(db).rows[head].command !in declared.value ==>
                      db == if w.releaseOk(card) then Fail(old(db), old(db).rows[head].id) else old(db))
                && (Ready(old(db), card, declared, w.newJob(card)) ==> !r.Skipped?)
      ensures forall k :: 0 <= k < |steps| ==> steps[k].DoClaim? || steps[k].DoFail?
      ensures declared.None? ==> db == old(db) && !r.Launched?
      ensures card in old(db).barriers ==> !r.Launched? && db.log == old(db).log
    {
      hide SlotInv, Claim, Fail, CanClaim, OldestFrom;
      steps := [];
      var head := Oldest(db.rows, card);
      if head.None? {
        return Skipped, [];
      }
      OldestIsQueued(db.rows, card, 0);
      var request := db.rows[head.value];
      if card !in db.cards {
        return Skipped, [];
      }
      if declared.None? {
        return Skipped, [];
      }
      if request.command !in declared.value {
        if !w.releaseOk(card) {
          return WriteFailed, [];
        }
        db := Fail(db, request.id);
        RunOne(old(db), DoFail(request.id));
        StepKept(old(db), DoFail(request.id));
        FailKeepsLog(old(db), request.id);
        FailKeepsOthers(old(db), request.id, card);
        return Skipped, [DoFail(request.id)];
      }
      var job := w.newJob(card);
      ghost var e := DoClaim(card, request.command, job);
      var claimed := CanClaim(db, card, request.command, job);
      db := Claim(db, card, request.command, job);
      RunOne(old(db), e);
      StepKept(old(db), e);
      ClaimOutcome(old(db), card, request.command, job);
      ClaimKeepsOthers(old(db), card, request.command, job);
      if !claimed {
        return Skipped, [e];
      }
      if w.startOk(card) {
        return Launched(request.id), [e];
      }
      if w.releaseOk(card) {
        db := Fail(db, request.id);
        RunTwo(old(db), e, DoFail(request.id));
        StepKept(Next(old(db), e), DoFail(request.id));
        FailedClaimRestoresQueue(old(db), card, request.command, job);
        assert Next(old(db), e).rows[head.value].id == request.id && Next(old(db), e).rows[head.value].card == card;
        FailKeepsOthers(Next(old(db), e), request.id, card);
        return DispatchFailed, [e, DoFail(request.id)];
      }
      return DispatchFailed, [e];
    }

    /** SweepQueuedCardRequests over the listed cards: each is dispatched or not on its own account. */
    method SweepQueuedCardRequests(cards: seq<string>, declared: map<string, Declared>, w: World)
      returns (dispatched: seq<string>, ghost steps: seq<Step>)
      requires SlotInv(db.rows)
      requires forall i, j :: 0 <= i < j < |cards| ==> cards[i] != cards[j]
      requires forall c :: c in cards ==> c in declared && w.newJob(c) != ""
      modifies this
      ensures db == Run(old(db), steps) && SlotInv(db.rows)
      ensures forall c :: c in dispatched <==> c in cards && Ready(old(db), c, declared[c], w.newJob(c)) && w.startOk(c)
      ensures forall k :: 0 <= k < |steps| ==> steps[k].DoClaim? || steps[k].DoFail?
    {
      hide SlotInv, Ready, AgreeOn;
      dispatched, steps := [], [];
      var i := 0;
      assert Run(old(db), []) == old(db);
      assert forall c :: AgreeOn(db, db, c) by { AgreeSelf(db); }
      while i < |cards|
        invariant 0 <= i <= |cards|
        invariant db == Run(old(db), steps) && SlotInv(db.rows)
        invariant forall c :: c !in cards[..i] ==> AgreeOn(old(db), db, c)
        invariant forall c :: c in dispatched <==>
                    c in cards[..i] && Ready(old(db), c, declared[c], w.newJob(c)) && w.startOk(c)
        invariant forall k :: 0 <= k < |steps| ==> steps[k].DoClaim? || steps[k].DoFail?
      {
        var card := cards[i];
        ghost var before := db;
        assert card !in cards[..i] && cards[..i + 1] == cards[..i] + [card];
        SameReady(old(db), db, card, declared[card], w.newJob(card));
        var r, taken := DispatchQueuedCardRequest(card, declared[card], w);
        forall c | c !in cards[..i + 1] ensures AgreeOn(old(db), db, c) {
          StillAgrees(old(db), before, db, card, c);
        }
        RunConcat(old(db), steps, taken);
        steps := steps + taken;
        if r.Launched? {
          dispatched := dispatched + [card];
        }
        i := i + 1;
      }
      assert cards[..|cards|] == cards;
    }

    /** Release; code is the HTTP status, siblings the folded requests failed along with it. */
    method Release(id: string, reasonBytes: nat)
      returns (code: nat, siblings: seq<string>, hadAttachedTarget: bool)
      requires SlotInv(db.rows)
      modifies this
      ensures code == 400 <==> id == "" || reasonBytes > REASON_MAX_BYTES
      ensures code == 404 <==> code != 400 && !HasRow(old(db).rows, id)
      ensures code in {200, 400, 404, 409}
      ensures code == 200 <==> id != "" && reasonBytes <= REASON_MAX_BYTES && CanRelease(old(db), id)
      ensures db == if code == 200 then ForceRelease(old(db), id) else old(db)
      ensures code == 200 ==>
                && (forall x :: x in siblings <==>
                      exists i :: 0 <= i < |old(db).rows| && IsSibling(old(db).rows[i], id) && old(db).rows[i].id == x)
                && (hadAttachedTarget <==>
                      exists i :: 0 <= i < |old(db).rows| && old(db).rows[i].id == id && HasTarget(old(db).rows[i]))
    {
      siblings, hadAttachedTarget := [], false;
      if id == "" || reasonBytes > REASON_MAX_BYTES {
        code := 400;
        return;
      }
      if !HasRow(db.rows, id) {
        code := 404;
        return;
      }
      if !CanRelease(db, id) {
        code := 409;
        return;
      }
      var rows := db.rows;
      var i := 0;
      while i < |rows|
        invariant 0 <= i <= |rows| && db == old(db)
        invariant forall x :: x in siblings <==> exists k :: 0 <= k < i && IsSibling(rows[k], id) && rows[k].id == x
        invariant hadAttachedTarget <==> exists k :: 0 <= k < i && rows[k].id == id && HasTarget(rows[k])
      {
        if IsSibling(rows[i], id) {
          siblings := siblings + [rows[i].id];
        }
        if rows[i].id == id && HasTarget(rows[i]) {
          hadAttachedTarget := true;
        }
        i := i + 1;
      }
      db := ForceRelease(db, id);
      code := 200;
    }
  }

  /** A claim takes a free, unbarred slot of an eligible card, or leaves no trace in the log. */
  lemma ClaimOutcome(s: Ledger, card: string, command: string, job: string)
    ensures var s' := Claim(s, card, command, job);
            if CanClaim(s, card, command, job) then
              card !in s.barriers && Eligible(s, card) && !SlotTaken(s.rows, card) && SlotTaken(s'.rows, card)
            else s'.log == s.log
  {
    OldestIsQueued(s.rows, card, 0);
    if CanClaim(s, card, command, job) {
      var k := Oldest(s.rows, card).value;
      assert IsActive(Claim(s, card, command, job).rows[k]);
    }
  }

  lemma FailKeepsLog(s: Ledger, id: string)
    ensures Fail(s, id).log == s.log
  {
  }

  /** Failing the newest row leaves every other row alone: nothing is folded into it yet. */
  lemma NewRowFails(s: Ledger, s': Ledger, id: string)
    requires SlotInv(s.rows) && !HasRow(s.rows, id) && id != ""
    requires |s'.rows| == |s.rows| + 1 && s'.rows[..|s.rows|] == s.rows
    requires s'.rows[|s.rows|].id == id && s'.rows[|s.rows|].status == Launching
    ensures Fail(s', id).rows == s.rows + [s'.rows[|s.rows|].(status := Failed)]
  {
    var n := |s.rows|;
    assert CanFail(s', id);
    forall i | 0 <= i < n ensures FailRow(s'.rows[i], id, Queued) == s.rows[i] {
      assert s'.rows[i] == s'.rows[..n][i];
      if s.rows[i].status == Folded {
        var p :| 0 <= p < n && RidesOn(s.rows, i, p);
        assert s.rows[p].id != id;
      }
    }
  }
}
