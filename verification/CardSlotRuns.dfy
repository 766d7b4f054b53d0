/** What every run of the card slot keeps. */
module CardSlotRuns {
  import opened Wrappers
  import opened CardRequests

  ghost predicate UniqueIds(rows: seq<Request>) {
    && (forall i, j :: 0 <= i < j < |rows| ==> rows[i].id != rows[j].id)
    && (forall i :: 0 <= i < |rows| ==> rows[i].id != "")
  }

  /** At most one request of a card occupies its slot. */
  ghost predicate OneActive(rows: seq<Request>) {
    forall i, j :: 0 <= i < j < |rows| && IsActive(rows[i]) && IsActive(rows[j]) ==> rows[i].card != rows[j].card
  }

  ghost predicate RidesOn(rows: seq<Request>, i: nat, p: nat)
    requires i < |rows| && p < |rows|
  {
    rows[p].id == rows[i].foldedInto && rows[p].card == rows[i].card && IsActive(rows[p])
  }

  /** No request is stranded: a folded one rides on an active request of its own card. */
  ghost predicate FoldsRide(rows: seq<Request>) {
    && (forall i :: 0 <= i < |rows| && rows[i].status == Folded ==> exists p :: 0 <= p < |rows| && RidesOn(rows, i, p))
    && (forall i :: 0 <= i < |rows| && rows[i].status !in {Folded, Succeeded} ==> rows[i].foldedInto == "")
  }

  /** A launching row names its launcher. */
  ghost predicate LaunchersNamed(rows: seq<Request>) {
    forall i :: 0 <= i < |rows| && rows[i].status == Launching ==> rows[i].launcher != ""
  }

  ghost predicate SlotInv(rows: seq<Request>) {
    UniqueIds(rows) && OneActive(rows) && FoldsRide(rows) && LaunchersNamed(rows)
  }

  lemma {:induction false} OldestIsQueued(rows: seq<Request>, card: string, i: nat)
    requires i <= |rows|
    ensures match OldestFrom(rows, card, i)
            case Some(k) => i <= k < |rows| && IsQueuedFor(rows[k], card)
                            && forall j :: i <= j < k ==> !IsQueuedFor(rows[j], card)
            case None => forall j :: i <= j < |rows| ==> !IsQueuedFor(rows[j], card)
    decreases |rows| - i
  {
    if i < |rows| {
      OldestIsQueued(rows, card, i + 1);
    }
  }

  lemma AddRowKept(rows: seq<Request>, r: Request)
    requires SlotInv(rows) && !HasRow(rows, r.id) && r.id != ""
    requires r.status == Queued || (r.status == Launching && r.launcher != "" && !SlotTaken(rows, r.card))
    requires r.foldedInto == ""
    ensures SlotInv(rows + [r])
  {
    var rows' := rows + [r];
    forall i | 0 <= i < |rows'| && rows'[i].status == Folded
      ensures exists p :: 0 <= p < |rows'| && RidesOn(rows', i, p)
    {
      var p :| 0 <= p < |rows| && RidesOn(rows, i, p);
      assert RidesOn(rows', i, p);
    }
  }

  ghost predicate CarriesNone(rows: seq<Request>, id: string) {
    forall i :: 0 <= i < |rows| && rows[i].status == Folded ==> rows[i].foldedInto != id
  }

  ghost predicate SamePlaces(rows: seq<Request>, rows': seq<Request>) {
    |rows'| == |rows| && forall i :: 0 <= i < |rows| ==> rows'[i].id == rows[i].id && rows'[i].card == rows[i].card
  }

  /** Rows may leave the slot together with all they carry; none enters it and none is folded anew. */
  lemma LeavingKept(rows: seq<Request>, rows': seq<Request>)
    requires SlotInv(rows) && SamePlaces(rows, rows')
    requires forall i :: 0 <= i < |rows| && IsActive(rows'[i]) ==> IsActive(rows[i])
    requires forall i :: 0 <= i < |rows| && IsActive(rows[i]) && !IsActive(rows'[i]) ==> CarriesNone(rows', rows[i].id)
    requires forall i :: 0 <= i < |rows| && rows'[i].status == Folded ==> rows'[i] == rows[i]
    requires forall i :: 0 <= i < |rows| && rows'[i].status !in {Folded, Succeeded} ==> rows'[i].foldedInto == ""
    requires LaunchersNamed(rows')
    ensures SlotInv(rows')
  {
    forall i | 0 <= i < |rows'| && rows'[i].status == Folded
      ensures exists p :: 0 <= p < |rows'| && RidesOn(rows', i, p)
    {
      var p :| 0 <= p < |rows| && RidesOn(rows, i, p);
      assert RidesOn(rows', i, p);
    }
  }

  lemma DrainKept(rows: seq<Request>, card: string)
    requires SlotInv(rows)
    ensures SlotInv(Each(rows, r => DrainQueued(r, card)))
  {
    LeavingKept(rows, Each(rows, r => DrainQueued(r, card)));
  }

  lemma PromotedAlone(rows: seq<Request>, card: string, k: nat, job: string)
    requires UniqueIds(rows) && OneActive(rows) && LaunchersNamed(rows) && !SlotTaken(rows, card) && job != ""
    requires k < |rows| && IsQueuedFor(rows[k], card)
    ensures var rows' := Each(rows, r => ClaimRow(r, card, rows[k].id, job));
            UniqueIds(rows') && OneActive(rows') && LaunchersNamed(rows')
  {
    var rows' := Each(rows, r => ClaimRow(r, card, rows[k].id, job));
    assert forall i :: 0 <= i < |rows| && IsActive(rows'[i]) ==>
        i == k || (rows'[i] == rows[i] && rows[i].card != card);
  }

  lemma PromoteKept(rows: seq<Request>, card: string, k: nat, job: string)
    requires SlotInv(rows) && !SlotTaken(rows, card) && job != ""
    requires k < |rows| && IsQueuedFor(rows[k], card)
    ensures SlotInv(Each(rows, r => ClaimRow(r, card, rows[k].id, job)))
  {
    hide UniqueIds, OneActive, LaunchersNamed, SlotTaken;
    var rows' := Each(rows, r => ClaimRow(r, card, rows[k].id, job));
    PromotedAlone(rows, card, k, job);
    forall i | 0 <= i < |rows'| && rows'[i].status == Folded
      ensures exists p :: 0 <= p < |rows'| && RidesOn(rows', i, p)
    {
      if rows[i].status == Folded {
        var p :| 0 <= p < |rows| && RidesOn(rows, i, p);
        assert RidesOn(rows', i, p);
      } else {
        assert RidesOn(rows', i, k);
      }
    }
  }

  lemma ClaimKept(s: Ledger, card: string, command: string, job: string)
    requires SlotInv(s.rows)
    ensures SlotInv(Claim(s, card, command, job).rows)
  {
    OldestIsQueued(s.rows, card, 0);
    DrainKept(s.rows, card);
    if CanClaim(s, card, command, job) {
      PromoteKept(s.rows, card, Oldest(s.rows, card).value, job);
    }
  }

  lemma FailKept(s: Ledger, id: string, siblings: RequestStatus)
    requires SlotInv(s.rows) && id != "" && siblings in {Queued, Failed}
    ensures SlotInv(Each(s.rows, r => FailRow(r, id, siblings)))
  {
    hide SlotInv, FoldsRide, OneActive, LaunchersNamed;
    var rows, rows' := s.rows, Each(s.rows, r => FailRow(r, id, siblings));
    assert CarriesNone(rows', id);
    assert forall i :: 0 <= i < |rows| && rows'[i].id != id ==> rows'[i] == rows[i] || rows'[i].status == siblings;
    FailedRowsShape(rows, id, siblings);
    LeavingKept(rows, rows');
  }

  lemma FailedRowsShape(rows: seq<Request>, id: string, siblings: RequestStatus)
    requires SlotInv(rows) && siblings in {Queued, Failed}
    ensures var rows' := Each(rows, r => FailRow(r, id, siblings));
            && LaunchersNamed(rows')
            && forall i :: 0 <= i < |rows| && rows'[i].status !in {Folded, Succeeded} ==> rows'[i].foldedInto == ""
  {
    hide UniqueIds, OneActive;
  }

  lemma AttachKept(s: Ledger, id: string, job: string, kind: string, target: string)
    requires SlotInv(s.rows)
    ensures SlotInv(Attach(s, id, job, kind, target).rows)
  {
    LeavingKept(s.rows, Attach(s, id, job, kind, target).rows);
  }

  ghost predicate Carries(rows: seq<Request>, k: nat, i: nat)
    requires k < |rows| && i < |rows|
  {
    rows[i].status == Folded && rows[i].foldedInto == rows[k].id
  }

  ghost predicate Settles(rows: seq<Request>, k: nat, i: nat)
    requires k < |rows| && i < |rows|
  {
    || i == k || Carries(rows, k, i)
    || (i < k && rows[i].card == rows[k].card && rows[i].status == Failed && rows[i].cause == "")
  }

  /** What a completion of row k settles: the row, what it carries, and the card's older human failures. */
  lemma FinishedRows(rows: seq<Request>, k: nat)
    requires UniqueIds(rows) && k < |rows|
    ensures |FinishRows(rows, k)| == |rows|
    ensures forall i :: 0 <= i < |rows| ==>
              FinishRows(rows, k)[i] == if Settles(rows, k, i) then rows[i].(status := Succeeded) else rows[i]
  {
    assert forall i :: 0 <= i < |rows| && i != k ==> rows[i].id != rows[k].id;
  }

  lemma FinishKept(s: Ledger, k: nat)
    requires SlotInv(s.rows)
    ensures SlotInv(Finish(s, k).rows)
  {
    hide FinishRows, OneActive, UniqueIds;
    if k < |s.rows| && s.rows[k].status == Attached {
      FinishedRows(s.rows, k);
      LeavingKept(s.rows, FinishRows(s.rows, k));
    }
  }

  lemma RetryKept(s: Ledger, k: nat)
    requires SlotInv(s.rows)
    ensures SlotInv(Retry(s, k).rows)
  {
    LeavingKept(s.rows, Retry(s, k).rows);
  }

  /** Where a kept row came from. */
  lemma {:induction false} KeptAt(rows: seq<Request>, aged: set<string>, a: nat) returns (i: nat)
    requires a < |Kept(rows, aged)|
    ensures i < |rows| && rows[i] == Kept(rows, aged)[a] && !Collectable(rows[i], aged)
  {
    var n := |rows| - 1;
    if a < |Kept(rows[..n], aged)| {
      i := KeptAt(rows[..n], aged, a);
    } else {
      i := n;
    }
  }

  /** Kept rows stay in order. */
  lemma {:induction false} KeptInOrder(rows: seq<Request>, aged: set<string>, a: nat, b: nat) returns (i: nat, j: nat)
    requires a < b < |Kept(rows, aged)|
    ensures i < j < |rows| && rows[i] == Kept(rows, aged)[a] && rows[j] == Kept(rows, aged)[b]
  {
    var n := |rows| - 1;
    if b < |Kept(rows[..n], aged)| {
      i, j := KeptInOrder(rows[..n], aged, a, b);
    } else {
      i := KeptAt(rows[..n], aged, a);
      j := n;
    }
  }

  lemma {:induction false} KeptHas(rows: seq<Request>, aged: set<string>, i: nat) returns (a: nat)
    requires i < |rows| && !Collectable(rows[i], aged)
    ensures a < |Kept(rows, aged)| && Kept(rows, aged)[a] == rows[i]
  {
    var n := |rows| - 1;
    if i < n {
      a := KeptHas(rows[..n], aged, i);
    } else {
      a := |Kept(rows[..n], aged)|;
    }
  }

  /** What rides on an active row survives with it: neither has ended. */
  lemma CollectKept(rows: seq<Request>, aged: set<string>)
    requires SlotInv(rows)
    ensures SlotInv(Kept(rows, aged))
  {
    hide Kept;
    var rows' := Kept(rows, aged);
    forall a, b | 0 <= a < b < |rows'|
      ensures rows'[a].id != rows'[b].id
      ensures IsActive(rows'[a]) && IsActive(rows'[b]) ==> rows'[a].card != rows'[b].card
    {
      var i, j := KeptInOrder(rows, aged, a, b);
    }
    forall a | 0 <= a < |rows'|
      ensures rows'[a].id != "" && (rows'[a].status == Launching ==> rows'[a].launcher != "")
      ensures rows'[a].status !in {Folded, Succeeded} ==> rows'[a].foldedInto == ""
      ensures rows'[a].status == Folded ==> exists p :: 0 <= p < |rows'| && RidesOn(rows', a, p)
    {
      var i := KeptAt(rows, aged, a);
      if rows[i].status == Folded {
        var p :| 0 <= p < |rows| && RidesOn(rows, i, p);
        var p' := KeptHas(rows, aged, p);
        assert RidesOn(rows', a, p');
      }
    }
  }

  lemma StepKept(s: Ledger, e: Step)
    requires SlotInv(s.rows)
    ensures SlotInv(Next(s, e).rows)
  {
    match e
    case DoReserve(card, command, id, job) =>
      if Reserve(s, card).Reserved? && FreshId(s, id) && job != "" {
        AddRowKept(s.rows, Request(id, card, command, "", Launching, job, "", "", ""));
      }
    case DoEnqueue(card, command, cause, id) =>
      if FreshId(s, id) {
        AddRowKept(s.rows, Request(id, card, command, cause, Queued, "", "", "", ""));
      }
    case DoClaim(card, command, job) => ClaimKept(s, card, command, job);
    case DoFail(id) => if id != "" { FailKept(s, id, Queued); }
    case DoForceRelease(id) => if id != "" { FailKept(s, id, Failed); }
    case DoAttach(id, job, kind, target) => AttachKept(s, id, job, kind, target);
    case DoFinish(k) => FinishKept(s, k);
    case DoRetry(k) => RetryKept(s, k);
    case DoCollect(aged) => CollectKept(s.rows, aged);
    case DoCard(card, state) =>
  }

  /**
   Slot safety over every run of human launches, automatic claims, failures, forced
   releases, attachments, completions and retries: at most one active request per card,
   and no folded request without an active one of its own card to ride on.
   */
  lemma {:induction false} SlotSafety(cards: map<string, Card>, steps: seq<Step>)
    ensures SlotInv(Run(Init(cards), steps).rows)
  {
    if steps != [] {
      SlotSafety(cards, steps[..|steps| - 1]);
      StepKept(Run(Init(cards), steps[..|steps| - 1]), steps[|steps| - 1]);
    }
  }

  // ---------- the force-release barrier ----------

  /** Read off the log alone: the last thing that happened to the card's barrier was its planting. */
  ghost predicate BarredByLog(log: seq<Event>, card: string) {
    log != [] &&
    (var last := log[|log| - 1];
     if last == ForceReleased(card) then true
     else if last == HumanTouch(card) then false
     else BarredByLog(log[..|log| - 1], card))
  }

  /** What one step may do to the log and the barriers. */
  ghost predicate LogStep(s: Ledger, s': Ledger) {
    || (s'.log == s.log && s'.barriers == s.barriers)
    || (|s'.log| == |s.log| + 1 && s'.log[..|s.log|] == s.log &&
        match s'.log[|s.log|]
        case AutoLaunch(card) => card !in s.barriers && s'.barriers == s.barriers
        case ForceReleased(card) => s'.barriers == s.barriers + {card}
        case HumanTouch(card) => s'.barriers == s.barriers - {card})
  }

  lemma StepLogs(s: Ledger, e: Step)
    ensures LogStep(s, Next(s, e))
  {
    hide Each, OldestFrom, CardOf, SlotTaken, HasRow, CauseTaken, CanFail, FinishRows, Kept;
  }

  lemma {:induction false} BarrierFollowsLog(cards: map<string, Card>, steps: seq<Step>, card: string)
    ensures card in Run(Init(cards), steps).barriers <==> BarredByLog(Run(Init(cards), steps).log, card)
  {
    hide Next;
    if steps != [] {
      var s := Run(Init(cards), steps[..|steps| - 1]);
      BarrierFollowsLog(cards, steps[..|steps| - 1], card);
      StepLogs(s, steps[|steps| - 1]);
    }
  }

  lemma {:induction false} BarredUntilHuman(log: seq<Event>, card: string, i: nat)
    requires i < |log| && log[i] == ForceReleased(card)
    requires !BarredByLog(log, card)
    ensures exists k :: i < k < |log| && log[k] == HumanTouch(card)
  {
    var last := |log| - 1;
    if log[last] != HumanTouch(card) {
      BarredUntilHuman(log[..last], card, i);
      var k :| i < k < last && log[..last][k] == HumanTouch(card);
      assert log[k] == HumanTouch(card);
    }
  }

  /** The log never ends in an automatic launch of a card barred before it. */
  ghost predicate LaunchesUnbarred(log: seq<Event>) {
    forall j :: 0 <= j < |log| && log[j].AutoLaunch? ==> !BarredByLog(log[..j], log[j].card)
  }

  lemma {:induction false} LaunchesAreUnbarred(cards: map<string, Card>, steps: seq<Step>)
    ensures LaunchesUnbarred(Run(Init(cards), steps).log)
  {
    hide Next;
    if steps != [] {
      var before, e := steps[..|steps| - 1], steps[|steps| - 1];
      var s := Run(Init(cards), before);
      LaunchesAreUnbarred(cards, before);
      StepLogs(s, e);
      var s' := Next(s, e);
      forall j | 0 <= j < |s'.log| && s'.log[j].AutoLaunch? ensures !BarredByLog(s'.log[..j], s'.log[j].card) {
        if j < |s.log| {
          assert s'.log[..j] == s.log[..j] && s'.log[j] == s.log[j];
        } else {
          assert s'.log[..j] == s.log;
          BarrierFollowsLog(cards, before, s'.log[j].card);
        }
      }
    }
  }

  /** No automatic launch follows a forced release of a card before a human operation on it. */
  lemma NoAutoLaunchBehindRelease(cards: map<string, Card>, steps: seq<Step>, i: nat, j: nat, card: string)
    requires i < j < |Run(Init(cards), steps).log|
    requires Run(Init(cards), steps).log[i] == ForceReleased(card)
    requires Run(Init(cards), steps).log[j] == AutoLaunch(card)
    ensures exists k :: i < k < j && Run(Init(cards), steps).log[k] == HumanTouch(card)
  {
    var log := Run(Init(cards), steps).log;
    LaunchesAreUnbarred(cards, steps);
    BarredUntilHuman(log[..j], card, i);
    var k :| i < k < j && log[..j][k] == HumanTouch(card);
    assert log[k] == HumanTouch(card);
  }

  /** A human command leaves the barrier standing exactly if its reservation aborts. */
  lemma BarrierStaysIff(s: Ledger, card: string, command: string, id: string, job: string)
    requires FreshId(s, id) && job != ""
    ensures card in HumanReserve(s, card, command, id, job).barriers <==> card in s.barriers && Reserve(s, card).Abort?
  {
  }

  /** What lifts a card's barrier: a human command whose reservation does not abort, or an accepted retry. */
  ghost predicate Lifts(s: Ledger, e: Step, card: string) {
    || (e.DoReserve? && e.card == card && FreshId(s, e.id) && e.job != "" && !Reserve(s, card).Abort?)
    || (e.DoRetry? && e.row < |s.rows| && s.rows[e.row].card == card && s.rows[e.row].status == Failed
        && !CauseTaken(s.rows, s.rows[e.row].cause))
  }

  /** Of all the steps exactly those end a barrier. */
  lemma BarrierEndsIff(s: Ledger, e: Step, card: string)
    requires card in s.barriers
    ensures card !in Next(s, e).barriers <==> Lifts(s, e, card)
  {
    hide Each, OldestFrom, CardOf, SlotTaken, HasRow, CauseTaken, CanFail, FinishRows, Kept;
  }

  /** Over any run a barrier that stood and is gone was lifted by such a step on the way. */
  lemma {:induction false} BarrierEndsByLift(s: Ledger, steps: seq<Step>, card: string)
    requires card in s.barriers && card !in Run(s, steps).barriers
    ensures exists k :: 0 <= k < |steps| && Lifts(Run(s, steps[..k]), steps[k], card)
  {
    hide Next, Lifts;
    var n := |steps| - 1;
    if card in Run(s, steps[..n]).barriers {
      BarrierEndsIff(Run(s, steps[..n]), steps[n], card);
    } else {
      BarrierEndsByLift(s, steps[..n], card);
      var k :| 0 <= k < n && Lifts(Run(s, steps[..n][..k]), steps[..n][k], card);
      assert steps[..n][..k] == steps[..k] && steps[..n][k] == steps[k];
    }
  }

  /** A command on a card dropped after its forced release: the human has acted and the barrier still stands. */
  lemma AbortedCommandLeavesBarrier(card: string, command: string)
    ensures var steps := [DoReserve(card, command, "r1", "j1"), DoForceRelease("r1"),
                          DoCard(card, Card(Dropped, true, 0, "")), DoReserve(card, command, "r2", "j2")];
            card in Run(Init(map[card := Card(Parked, true, 0, "")]), steps).barriers
  {
    hide Next, SlotInv;
    var s0 := Init(map[card := Card(Parked, true, 0, "")]);
    var e1, e2 := DoReserve(card, command, "r1", "j1"), DoForceRelease("r1");
    FirstCommand(card, command);
    ReleaseFirst(Next(s0, e1));
    DroppedCommandAborts(Next(Next(s0, e1), e2), card, command);
    RunFour(s0, e1, e2, DoCard(card, Card(Dropped, true, 0, "")), DoReserve(card, command, "r2", "j2"));
  }

  lemma RunFour(s: Ledger, a: Step, b: Step, c: Step, d: Step)
    ensures Run(s, [a, b, c, d]) == Next(Next(Next(Next(s, a), b), c), d)
  {
    hide Next;
    assert [a, b, c, d][..3] == [a, b, c] && [a, b, c][..2] == [a, b];
    assert [a, b][..1] == [a] && [a][..0] == [] && Run(s, []) == s;
    assert Run(s, [a]) == Next(s, a);
    assert Run(s, [a, b]) == Next(Next(s, a), b);
    assert Run(s, [a, b, c]) == Next(Next(Next(s, a), b), c);
  }

  lemma DroppedCommandAborts(s: Ledger, card: string, command: string)
    requires card in s.barriers && |s.rows| == 1 && s.rows[0].id == "r1" && s.gone == {}
    ensures var dropped := Next(s, DoCard(card, Card(Dropped, true, 0, "")));
            card in Next(dropped, DoReserve(card, command, "r2", "j2")).barriers
  {
    var s' := Next(s, DoCard(card, Card(Dropped, true, 0, "")));
    assert FreshId(s', "r2") && Reserve(s', card).Abort?;
    BarrierStaysIff(s', card, command, "r2", "j2");
  }

  lemma FirstCommand(card: string, command: string)
    ensures var s := Next(Init(map[card := Card(Parked, true, 0, "")]), DoReserve(card, command, "r1", "j1"));
            && s.rows == [Request("r1", card, command, "", Launching, "j1", "", "", "")] && SlotInv(s.rows)
            && s.gone == {} && s.cards == map[card := Card(Parked, true, 0, "")]
  {
  }

  lemma ReleaseFirst(s: Ledger)
    requires SlotInv(s.rows) && |s.rows| == 1 && s.rows[0].id == "r1" && IsActive(s.rows[0]) && s.gone == {}
    ensures var s' := Next(s, DoForceRelease("r1"));
            && s.rows[0].card in s'.barriers && |s'.rows| == 1 && s'.rows[0].id == "r1"
            && s'.gone == {} && s'.cards == s.cards
  {
    ReleaseSettles(s, 0);
  }

  // ---------- entering and leaving the slot ----------

  /** A claim leaves nothing of the card queued: its head is launching, the rest ride on it. */
  lemma ClaimTakesWholeQueue(s: Ledger, card: string, command: string, job: string)
    requires SlotInv(s.rows) && CanClaim(s, card, command, job)
    ensures var k, rows := Oldest(s.rows, card).value, Claim(s, card, command, job).rows;
            && |rows| == |s.rows| && Oldest(rows, card).None?
            && rows[k] == s.rows[k].(status := Launching, launcher := job) && rows[k].command == command
            && (forall i :: 0 <= i < |rows| && i != k && IsQueuedFor(s.rows[i], card) ==> k < i && Carries(rows, k, i))
            && (forall i :: 0 <= i < |rows| && !IsQueuedFor(s.rows[i], card) ==> rows[i] == s.rows[i])
  {
    var rows := Claim(s, card, command, job).rows;
    OldestIsQueued(s.rows, card, 0);
    OldestIsQueued(rows, card, 0);
  }

  /** While one row of the card is active it is the only one, so its leaving frees the slot. */
  lemma OnlyOccupant(rows: seq<Request>, rows': seq<Request>, k: nat)
    requires SlotInv(rows) && SamePlaces(rows, rows') && k < |rows| && IsActive(rows[k])
    requires forall i :: 0 <= i < |rows| && IsActive(rows'[i]) ==> IsActive(rows[i]) && i != k
    ensures !SlotTaken(rows', rows[k].card)
  {
    forall i | 0 <= i < |rows'| && IsActive(rows'[i]) ensures rows'[i].card != rows[k].card {
      assert rows[i].card != rows[k].card;
    }
  }

  /** A completion settles that and nothing else, and frees the slot. */
  lemma FinishSettles(s: Ledger, k: nat)
    requires SlotInv(s.rows) && k < |s.rows| && s.rows[k].status == Attached
    ensures var rows := Finish(s, k).rows;
            && |rows| == |s.rows| && !SlotTaken(rows, s.rows[k].card)
            && (forall i :: 0 <= i < |rows| ==>
                  rows[i] == if Settles(s.rows, k, i) then s.rows[i].(status := Succeeded) else s.rows[i])
  {
    hide FinishRows;
    FinishedRows(s.rows, k);
    OnlyOccupant(s.rows, Finish(s, k).rows, k);
  }

  /** Failing row k and what it carries changes those rows only. */
  lemma FailedRows(rows: seq<Request>, k: nat)
    requires UniqueIds(rows) && k < |rows| && IsActive(rows[k])
    ensures var rows' := Each(rows, r => FailRow(r, rows[k].id, Failed));
            forall i :: 0 <= i < |rows| ==>
              rows'[i] == if i == k then rows[i].(status := Failed)
                          else if Carries(rows, k, i) then rows[i].(status := Failed, foldedInto := "")
                          else rows[i]
  {
    assert forall i :: 0 <= i < |rows| && i != k ==> rows[i].id != rows[k].id;
  }

  /** A forced release fails the request and all it carried, bars the card, and frees the slot. */
  lemma ReleaseSettles(s: Ledger, k: nat)
    requires SlotInv(s.rows) && k < |s.rows| && IsActive(s.rows[k])
    ensures var s' := ForceRelease(s, s.rows[k].id);
            && s'.barriers == s.barriers + {s.rows[k].card} && s'.log == s.log + [ForceReleased(s.rows[k].card)]
            && |s'.rows| == |s.rows| && !SlotTaken(s'.rows, s.rows[k].card)
            && (forall i :: 0 <= i < |s.rows| ==>
                  s'.rows[i] == if i == k then s.rows[i].(status := Failed)
                                else if Carries(s.rows, k, i) then s.rows[i].(status := Failed, foldedInto := "")
                                else s.rows[i])
  {
    hide FailRow, UniqueIds, OneActive, FoldsRide, LaunchersNamed, SlotTaken, CardOf;
    var id := s.rows[k].id;
    CardOfRow(s.rows, k);
    CanReleaseRow(s, k);
    FailedRows(s.rows, k);
    OnlyOccupant(s.rows, ForceRelease(s, id).rows, k);
  }

  lemma CanReleaseRow(s: Ledger, k: nat)
    requires UniqueIds(s.rows) && k < |s.rows| && IsActive(s.rows[k])
    ensures CanRelease(s, s.rows[k].id)
  {
    assert s.rows[k].id == s.rows[k].id;
  }

  lemma {:induction false} CardOfRow(rows: seq<Request>, k: nat)
    requires UniqueIds(rows) && k < |rows|
    ensures HasRow(rows, rows[k].id) && CardOf(rows, rows[k].id) == rows[k].card
  {
    assert rows[k].id == rows[k].id;
    if k > 0 {
      assert rows[0].id != rows[k].id;
      CardOfRow(rows[1..], k - 1);
    }
  }

  // ---------- a launch that never started ----------

  /** Nothing is folded into a request that is still queued. */
  lemma WaitingCarriesNothing(rows: seq<Request>, k: nat)
    requires SlotInv(rows) && k < |rows| && rows[k].status == Queued
    ensures forall i :: 0 <= i < |rows| && rows[i].status == Folded ==> rows[i].foldedInto != rows[k].id
  {
    forall i | 0 <= i < |rows| && rows[i].status == Folded ensures rows[i].foldedInto != rows[k].id {
      var p :| 0 <= p < |rows| && RidesOn(rows, i, p);
      assert p != k;
    }
  }

  /**
   Failing the request a claim just promoted undoes the claim for everyone else: the
   folded rows are queued again exactly as they were, and only the head has failed.
   */
  lemma FailedClaimRestoresQueue(s: Ledger, card: string, command: string, job: string)
    requires SlotInv(s.rows) && CanClaim(s, card, command, job)
    ensures var k := Oldest(s.rows, card).value;
            var rows := Fail(Claim(s, card, command, job), s.rows[k].id).rows;
            && rows == s.rows[k := s.rows[k].(status := Failed, launcher := job)]
            && !SlotTaken(rows, card)
  {
    OldestIsQueued(s.rows, card, 0);
    var k := Oldest(s.rows, card).value;
    var mid := Claim(s, card, command, job);
    assert mid.rows[k].id == s.rows[k].id && mid.rows[k].status == Launching;
    assert CanFail(mid, s.rows[k].id);
    var rows := Fail(mid, s.rows[k].id).rows;
    WaitingCarriesNothing(s.rows, k);
    forall i | 0 <= i < |rows| ensures rows[i] == s.rows[k := s.rows[k].(status := Failed, launcher := job)][i] {
      assert i != k ==> s.rows[i].id != s.rows[k].id;
    }
  }
}
