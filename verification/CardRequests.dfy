/**
 The card_requests ledger as a transition system: every step is one database transaction
 of internal/orchestrator/card_request*.go, as the slot actors of internal/api call them.
 Rows are kept in creation order.
 */
module CardRequests {
  import opened Wrappers

  datatype RequestStatus = Queued | Launching | Attached | Folded | Succeeded | Failed

  /** One row; an empty cause marks a human request. */
  datatype Request = Request(
    id: string, card: string, command: string, cause: string, status: RequestStatus,
    launcher: string, targetKind: string, targetID: string, foldedInto: string)

  datatype CardStatus = Parked | Working | CardDone | Dropped

  /** What the occupancy check reads off a card: detailOk is false when its detail blob is corrupt. */
  datatype Card = Card(status: CardStatus, detailOk: bool, openChildren: nat, liveChild: string)

  /** The three facts the force-release barrier is about. */
  datatype Event = AutoLaunch(card: string) | ForceReleased(card: string) | HumanTouch(card: string)

  /** gone: the ids of the rows the collector has deleted. */
  datatype Ledger = Ledger(
    rows: seq<Request>, cards: map<string, Card>, barriers: set<string>, log: seq<Event>, gone: set<string>)

  predicate IsActive(r: Request) {
    r.status == Launching || r.status == Attached
  }

  /** The partial unique index: a card with an active row takes no second one. */
  predicate SlotTaken(rows: seq<Request>, card: string) {
    exists i :: 0 <= i < |rows| && rows[i].card == card && IsActive(rows[i])
  }

  predicate HasRow(rows: seq<Request>, id: string) {
    exists i :: 0 <= i < |rows| && rows[i].id == id
  }

  /** Generated ids are never empty and never repeat. */
  predicate FreshId(s: Ledger, id: string) {
    id != "" && !HasRow(s.rows, id) && id !in s.gone
  }

  /** The cause index: one row that has not failed per non-empty cause. */
  predicate CauseTaken(rows: seq<Request>, cause: string) {
    cause != "" && exists i :: 0 <= i < |rows| && rows[i].cause == cause && rows[i].status != Failed
  }

  /** An UPDATE over every row. */
  function Each(rows: seq<Request>, f: Request -> Request): (out: seq<Request>)
    ensures |out| == |rows| && forall i :: 0 <= i < |rows| ==> out[i] == f(rows[i])
  {
    seq(|rows|, i requires 0 <= i < |rows| => f(rows[i]))
  }

  function Eligible(s: Ledger, card: string): bool {
    card in s.cards && (s.cards[card].status == Parked || s.cards[card].status == Working)
  }

  // ---------- the human command's reservation ----------

  datatype Reservation = Abort(code: nat) | OccupiedByChild(child: string) | OccupiedByRequest | Reserved

  /** cardWorkChildOccupantTx, then the INSERT that claims the slot. */
  function Reserve(s: Ledger, card: string): Reservation {
    if card !in s.cards then Abort(500)
    else if !Eligible(s, card) then Abort(409)
    else if !s.cards[card].detailOk then Abort(500)
    else if s.cards[card].openChildren > 0 then OccupiedByChild(s.cards[card].liveChild)
    else if SlotTaken(s.rows, card) then OccupiedByRequest
    else Reserved
  }

  /** An aborted transaction rolls the barrier's removal back too. */
  function HumanReserve(s: Ledger, card: string, command: string, id: string, job: string): Ledger {
    var r := Reserve(s, card);
    if r.Abort? || !FreshId(s, id) || job == "" then s
    else
      s.(barriers := s.barriers - {card}, log := s.log + [HumanTouch(card)],
         rows := if r.Reserved? then s.rows + [Request(id, card, command, "", Launching, job, "", "", "")] else s.rows)
  }

  // ---------- events and the automatic claim ----------

  function Enqueue(s: Ledger, card: string, command: string, cause: string, id: string): Ledger {
    if CauseTaken(s.rows, cause) || !FreshId(s, id) then s
    else s.(rows := s.rows + [Request(id, card, command, cause, Queued, "", "", "", "")])
  }

  predicate IsQueuedFor(r: Request, card: string) {
    r.card == card && r.status == Queued
  }

  /** The oldest queued row of a card, as an index. */
  function OldestFrom(rows: seq<Request>, card: string, i: nat): Option<nat>
    requires i <= |rows|
    decreases |rows| - i
  {
    if i == |rows| then None
    else if IsQueuedFor(rows[i], card) then Some(i)
    else OldestFrom(rows, card, i + 1)
  }

  function Oldest(rows: seq<Request>, card: string): Option<nat> {
    OldestFrom(rows, card, 0)
  }

  function DrainQueued(r: Request, card: string): Request {
    if IsQueuedFor(r, card) then r.(status := Failed) else r
  }

  /** Promote the head and fold the card's other queued rows into it. */
  function ClaimRow(r: Request, card: string, head: string, job: string): Request {
    if !IsQueuedFor(r, card) then r
    else if r.id == head then r.(status := Launching, launcher := job)
    else r.(status := Folded, foldedInto := head)
  }

  predicate CanClaim(s: Ledger, card: string, command: string, job: string) {
    && job != "" && Eligible(s, card) && card !in s.barriers && !SlotTaken(s.rows, card)
    && Oldest(s.rows, card).Some? && Oldest(s.rows, card).value < |s.rows|
    && s.rows[Oldest(s.rows, card).value].command == command
  }

  /** ClaimQueuedCardRequestsForDispatch: an ineligible card's backlog is drained instead. */
  function Claim(s: Ledger, card: string, command: string, job: string): Ledger {
    if !Eligible(s, card) then s.(rows := Each(s.rows, r => DrainQueued(r, card)))
    else if !CanClaim(s, card, command, job) then s
    else
      var head := s.rows[Oldest(s.rows, card).value].id;
      s.(rows := Each(s.rows, r => ClaimRow(r, card, head, job)), log := s.log + [AutoLaunch(card)])
  }

  // ---------- leaving the slot ----------

  predicate CanFail(s: Ledger, id: string) {
    exists i :: 0 <= i < |s.rows| && s.rows[i].id == id && s.rows[i].status in {Queued, Launching, Attached}
  }

  /** failCardRequest on one row: the named row fails, the rows folded into it get `siblings`. */
  function FailRow(r: Request, id: string, siblings: RequestStatus): Request {
    if r.id == id && r.status in {Queued, Launching, Attached} then r.(status := Failed)
    else if r.foldedInto == id && r.status == Folded then r.(status := siblings, foldedInto := "")
    else r
  }

  function Fail(s: Ledger, id: string): Ledger {
    if id != "" && CanFail(s, id) then s.(rows := Each(s.rows, r => FailRow(r, id, Queued))) else s
  }

  function CardOf(rows: seq<Request>, id: string): string
    requires HasRow(rows, id)
  {
    if rows[0].id == id then rows[0].card else CardOf(rows[1..], id)
  }

  predicate CanRelease(s: Ledger, id: string) {
    id != "" && CanFail(s, id) && HasRow(s.rows, id)
  }

  function ForceRelease(s: Ledger, id: string): Ledger {
    if !CanRelease(s, id) then s
    else
      var card := CardOf(s.rows, id);
      s.(rows := Each(s.rows, r => FailRow(r, id, Failed)),
         barriers := s.barriers + {card}, log := s.log + [ForceReleased(card)])
  }

  function AttachRow(r: Request, id: string, job: string, kind: string, target: string): Request {
    if r.id == id && r.status == Launching && r.launcher == job
    then r.(status := Attached, targetKind := kind, targetID := target) else r
  }

  function Attach(s: Ledger, id: string, job: string, kind: string, target: string): Ledger {
    s.(rows := Each(s.rows, r => AttachRow(r, id, job, kind, target)))
  }

  /** FinishCardRequest: the row, what it carried, and older human failures of the card. */
  function FinishRow(r: Request, id: string, card: string, older: bool): Request {
    if r.id == id then r.(status := Succeeded)
    else if r.foldedInto == id && r.status == Folded then r.(status := Succeeded)
    else if older && r.card == card && r.status == Failed && r.cause == "" then r.(status := Succeeded)
    else r
  }

  function FinishRows(rows: seq<Request>, k: nat): seq<Request>
    requires k < |rows|
  {
    seq(|rows|, i requires 0 <= i < |rows| => FinishRow(rows[i], rows[k].id, rows[k].card, i < k))
  }

  function Finish(s: Ledger, k: nat): Ledger {
    if k < |s.rows| && s.rows[k].status == Attached then s.(rows := FinishRows(s.rows, k)) else s
  }

  /** RetryCardRequest, a human operation: it lifts the barrier too. */
  function Retry(s: Ledger, k: nat): Ledger {
    if k < |s.rows| && s.rows[k].status == Failed && !CauseTaken(s.rows, s.rows[k].cause) then
      s.(rows := s.rows[k := s.rows[k].(status := Queued, launcher := "", targetKind := "", targetID := "")],
         barriers := s.barriers - {s.rows[k].card}, log := s.log + [HumanTouch(s.rows[k].card)])
    else s
  }

  // ---------- the collector ----------

  predicate Ended(r: Request) {
    r.status == Succeeded || r.status == Failed
  }

  predicate Collectable(r: Request, aged: set<string>) {
    r.id in aged && Ended(r)
  }

  function Kept(rows: seq<Request>, aged: set<string>): seq<Request> {
    if rows == [] then []
    else
      var last := rows[|rows| - 1];
      Kept(rows[..|rows| - 1], aged) + if Collectable(last, aged) then [] else [last]
  }

  /** GCCardRequests deletes ended rows past their retention; aged are the ids of the old rows. */
  function Collect(s: Ledger, aged: set<string>): Ledger {
    s.(rows := Kept(s.rows, aged),
       gone := s.gone + set i | 0 <= i < |s.rows| && Collectable(s.rows[i], aged) :: s.rows[i].id)
  }

  datatype Step =
    | DoReserve(card: string, command: string, id: string, job: string)
    | DoEnqueue(card: string, command: string, cause: string, id: string)
    | DoClaim(card: string, command: string, job: string)
    | DoFail(id: string)
    | DoForceRelease(id: string)
    | DoAttach(id: string, job: string, kind: string, target: string)
    | DoFinish(row: nat)
    | DoRetry(row: nat)
    | DoCollect(aged: set<string>)
    | DoCard(card: string, state: Card)

  function Next(s: Ledger, e: Step): Ledger {
    match e
    case DoReserve(card, command, id, job) => HumanReserve(s, card, command, id, job)
    case DoEnqueue(card, command, cause, id) => Enqueue(s, card, command, cause, id)
    case DoClaim(card, command, job) => Claim(s, card, command, job)
    case DoFail(id) => Fail(s, id)
    case DoForceRelease(id) => ForceRelease(s, id)
    case DoAttach(id, job, kind, target) => Attach(s, id, job, kind, target)
    case DoFinish(k) => Finish(s, k)
    case DoRetry(k) => Retry(s, k)
    case DoCollect(aged) => Collect(s, aged)
    case DoCard(card, state) => s.(cards := s.cards[card := state])
  }

  function Run(s: Ledger, steps: seq<Step>): Ledger {
    if steps == [] then s else Next(Run(s, steps[..|steps| - 1]), steps[|steps| - 1])
  }

  function Init(cards: map<string, Card>): Ledger {
    Ledger([], cards, {}, [], {})
  }
}
