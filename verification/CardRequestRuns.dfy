/** What becomes of a single request over every run: it is never lost, and its cause never runs twice. */
module CardRequestRuns {
  import opened CardRequests
  import opened CardSlotRuns

  ghost predicate SameRow(a: Request, b: Request) {
    a.id == b.id && a.card == b.card && a.command == b.command && a.cause == b.cause
  }

  ghost predicate Present(rows: seq<Request>, r: Request) {
    exists j :: 0 <= j < |rows| && SameRow(rows[j], r)
  }

  /** Short of the collector a step keeps every row in its place. */
  lemma StepPersists(s: Ledger, e: Step, i: nat)
    requires i < |s.rows| && !e.DoCollect?
    ensures i < |Next(s, e).rows| && SameRow(Next(s, e).rows[i], s.rows[i])
  {
  }

  /** A request disappears exactly when the collector takes it, old and ended; no other is lost or renamed. */
  lemma RequestLostIff(s: Ledger, e: Step, i: nat)
    requires SlotInv(s.rows) && i < |s.rows|
    ensures !HasRow(Next(s, e).rows, s.rows[i].id) <==> e.DoCollect? && Collectable(s.rows[i], e.aged)
    ensures HasRow(Next(s, e).rows, s.rows[i].id) ==> Present(Next(s, e).rows, s.rows[i])
  {
    hide Next, Kept;
    if !e.DoCollect? {
      StepPersists(s, e, i);
    } else {
      StepCollects(s, e);
      if !Collectable(s.rows[i], e.aged) {
        var a := KeptHas(s.rows, e.aged, i);
      } else {
        forall a | 0 <= a < |Kept(s.rows, e.aged)| ensures Kept(s.rows, e.aged)[a].id != s.rows[i].id {
          var j := KeptAt(s.rows, e.aged, a);
          assert j != i;
        }
      }
    }
  }

  lemma StepCollects(s: Ledger, e: Step)
    requires e.DoCollect?
    ensures Next(s, e) == Collect(s, e.aged)
  {
  }

  ghost predicate EndedIn(rows: seq<Request>, id: string) {
    exists i :: 0 <= i < |rows| && rows[i].id == id && Ended(rows[i])
  }

  /** Over every run a request is still there under its own id, card, command and cause, or has ended first. */
  lemma {:induction false} LiveRequestsPersist(cards: map<string, Card>, steps: seq<Step>, more: seq<Step>, i: nat)
    requires i < |Run(Init(cards), steps).rows|
    ensures var s := Run(Init(cards), steps);
            || Present(Run(s, more).rows, s.rows[i])
            || exists n :: 0 <= n <= |more| && EndedIn(Run(s, more[..n]).rows, s.rows[i].id)
  {
    hide Next, Ended;
    var s := Run(Init(cards), steps);
    if more == [] {
      assert SameRow(s.rows[i], s.rows[i]);
    } else {
      var n := |more| - 1;
      var mid := Run(s, more[..n]);
      LiveRequestsPersist(cards, steps, more[..n], i);
      if Present(mid.rows, s.rows[i]) {
        var j :| 0 <= j < |mid.rows| && SameRow(mid.rows[j], s.rows[i]);
        RunFromKept(cards, steps, more[..n]);
        RequestLostIff(mid, more[n], j);
        if HasRow(Run(s, more).rows, s.rows[i].id) {
          var k :| 0 <= k < |Run(s, more).rows| && SameRow(Run(s, more).rows[k], mid.rows[j]);
        } else {
          assert EndedIn(Run(s, more[..n]).rows, s.rows[i].id);
        }
      } else {
        var m :| 0 <= m <= n && EndedIn(Run(s, more[..n][..m]).rows, s.rows[i].id);
        assert more[..n][..m] == more[..m];
      }
    }
  }

  lemma {:induction false} RunFromKept(cards: map<string, Card>, steps: seq<Step>, more: seq<Step>)
    ensures SlotInv(Run(Run(Init(cards), steps), more).rows)
  {
    if more == [] {
      SlotSafety(cards, steps);
    } else {
      RunFromKept(cards, steps, more[..|more| - 1]);
      StepKept(Run(Run(Init(cards), steps), more[..|more| - 1]), more[|more| - 1]);
    }
  }

  // ---------- the order of requests ----------

  ghost predicate InOrder(rows: seq<Request>, rows': seq<Request>) {
    forall i, j, a, b ::
      (0 <= i < j < |rows| && 0 <= a < |rows'| && 0 <= b < |rows'|
       && rows'[a].id == rows[i].id && rows'[b].id == rows[j].id) ==> a < b
  }

  lemma StepInOrder(s: Ledger, e: Step)
    requires SlotInv(s.rows) && SlotInv(Next(s, e).rows)
    ensures InOrder(s.rows, Next(s, e).rows)
  {
    hide Next, Kept, FoldsRide, OneActive, LaunchersNamed;
    var rows, rows' := s.rows, Next(s, e).rows;
    forall i, j, a, b | 0 <= i < j < |rows| && 0 <= a < |rows'| && 0 <= b < |rows'|
                        && rows'[a].id == rows[i].id && rows'[b].id == rows[j].id
      ensures a < b
    {
      assert a != b;
      if e.DoCollect? {
        StepCollects(s, e);
        if b < a {
          var j', i' := KeptInOrder(rows, e.aged, b, a);
        }
      } else {
        StepPersists(s, e, i);
        StepPersists(s, e, j);
        assert a == i && b == j;
      }
    }
  }

  /** Deleted ids never come back. */
  ghost predicate GoneIsGone(s: Ledger) {
    forall i :: 0 <= i < |s.rows| ==> s.rows[i].id !in s.gone
  }

  ghost predicate Known(s: Ledger, id: string) {
    HasRow(s.rows, id) || id in s.gone
  }

  lemma StepKnows(s: Ledger, e: Step)
    requires SlotInv(s.rows) && GoneIsGone(s)
    ensures GoneIsGone(Next(s, e)) && s.gone <= Next(s, e).gone
    ensures forall id :: Known(s, id) ==> Known(Next(s, e), id)
  {
    var s' := Next(s, e);
    if e.DoCollect? {
      hide Kept, FoldsRide, OneActive, LaunchersNamed;
      forall a | 0 <= a < |s'.rows| ensures s'.rows[a].id !in s'.gone {
        var i := KeptAt(s.rows, e.aged, a);
      }
    } else {
      NewRowsAreFresh(s, e);
    }
    forall id | HasRow(s.rows, id) ensures Known(s', id) {
      var i :| 0 <= i < |s.rows| && s.rows[i].id == id;
      RequestLostIff(s, e, i);
    }
  }

  lemma NewRowsAreFresh(s: Ledger, e: Step)
    requires !e.DoCollect? && GoneIsGone(s)
    ensures Next(s, e).gone == s.gone && GoneIsGone(Next(s, e))
  {
  }

  lemma {:induction false} RunKnows(cards: map<string, Card>, steps: seq<Step>)
    ensures GoneIsGone(Run(Init(cards), steps))
  {
    if steps != [] {
      RunKnows(cards, steps[..|steps| - 1]);
      SlotSafety(cards, steps[..|steps| - 1]);
      StepKnows(Run(Init(cards), steps[..|steps| - 1]), steps[|steps| - 1]);
    }
  }

  lemma OrderComposes(a: Ledger, b: Ledger, c: Ledger)
    requires InOrder(a.rows, b.rows) && InOrder(b.rows, c.rows) && UniqueIds(b.rows) && GoneIsGone(c) &&
             b.gone <= c.gone
    requires forall id :: Known(a, id) ==> Known(b, id)
    ensures InOrder(a.rows, c.rows)
  {
    forall i, j, x, y | 0 <= i < j < |a.rows| && 0 <= x < |c.rows| && 0 <= y < |c.rows|
                        && c.rows[x].id == a.rows[i].id && c.rows[y].id == a.rows[j].id
      ensures x < y
    {
      assert Known(a, a.rows[i].id) && Known(a, a.rows[j].id);
      var i' :| 0 <= i' < |b.rows| && b.rows[i'].id == a.rows[i].id;
      var j' :| 0 <= j' < |b.rows| && b.rows[j'].id == a.rows[j].id;
      assert i' < j';
    }
  }

  /** Requests are never reordered: two that are still there stand as they stood. */
  lemma {:induction false} RequestsKeepOrder(cards: map<string, Card>, steps: seq<Step>, more: seq<Step>)
    ensures var s, s' := Run(Init(cards), steps), Run(Run(Init(cards), steps), more);
            && InOrder(s.rows, s'.rows) && GoneIsGone(s') && SlotInv(s'.rows)
            && (forall id :: Known(s, id) ==> Known(s', id))
  {
    hide Next;
    var s := Run(Init(cards), steps);
    RunFromKept(cards, steps, more);
    if more == [] {
      RunKnows(cards, steps);
    } else {
      var before := more[..|more| - 1];
      RequestsKeepOrder(cards, steps, before);
      StepInOrder(Run(s, before), more[|more| - 1]);
      StepKnows(Run(s, before), more[|more| - 1]);
      OrderComposes(s, Run(s, before), Run(s, more));
    }
  }

  // ---------- causes ----------

  /** One row that has not failed per non-empty cause. */
  ghost predicate CausesUnique(rows: seq<Request>) {
    forall i, j ::
      (0 <= i < j < |rows| && rows[i].cause != "" && rows[i].status != Failed && rows[j].status != Failed) ==>
      rows[i].cause != rows[j].cause
  }

  /** Rows keep their causes and no failed row with a cause comes back to life. */
  lemma CausesStay(rows: seq<Request>, rows': seq<Request>)
    requires CausesUnique(rows) && |rows'| == |rows|
    requires forall i :: 0 <= i < |rows| ==> rows'[i].cause == rows[i].cause
    requires forall i :: 0 <= i < |rows| && rows'[i].status != Failed ==>
             rows[i].status != Failed || rows[i].cause == ""
    ensures CausesUnique(rows')
  {
  }

  lemma CollectKeepsCauses(rows: seq<Request>, aged: set<string>)
    requires CausesUnique(rows)
    ensures CausesUnique(Kept(rows, aged))
  {
    hide Kept;
    forall a, b | 0 <= a < b < |Kept(rows, aged)| && Kept(rows, aged)[a].cause != ""
                  && Kept(rows, aged)[a].status != Failed && Kept(rows, aged)[b].status != Failed
      ensures Kept(rows, aged)[a].cause != Kept(rows, aged)[b].cause
    {
      var i, j := KeptInOrder(rows, aged, a, b);
    }
  }

  /** Completion passes over failed rows that have a cause, so it cannot bring one back. */
  lemma FinishKeepsCauses(s: Ledger, k: nat)
    requires UniqueIds(s.rows) && CausesUnique(s.rows)
    ensures CausesUnique(Finish(s, k).rows)
  {
    hide FinishRows, UniqueIds;
    if k < |s.rows| && s.rows[k].status == Attached {
      FinishedRows(s.rows, k);
      CausesStay(s.rows, FinishRows(s.rows, k));
    }
  }

  lemma AddKeepsCauses(s: Ledger, e: Step)
    requires CausesUnique(s.rows) && (e.DoReserve? || e.DoEnqueue? || e.DoRetry? || e.DoCard?)
    ensures CausesUnique(Next(s, e).rows)
  {
  }

  lemma StepKeepsCauses(s: Ledger, e: Step)
    requires SlotInv(s.rows) && CausesUnique(s.rows)
    ensures CausesUnique(Next(s, e).rows)
  {
    hide CausesUnique, UniqueIds, OneActive, FoldsRide, LaunchersNamed, FinishRows;
    match e
    case DoClaim(_, _, _) => CausesStay(s.rows, Next(s, e).rows);
    case DoFail(_) => CausesStay(s.rows, Next(s, e).rows);
    case DoForceRelease(_) => CausesStay(s.rows, Next(s, e).rows);
    case DoAttach(_, _, _, _) => CausesStay(s.rows, Next(s, e).rows);
    case DoFinish(k) => FinishKeepsCauses(s, k);
    case DoCollect(aged) => CollectKeepsCauses(s.rows, aged);
    case _ => AddKeepsCauses(s, e);
  }

  /** The cause index holds over every run: no event has two requests that have not failed. */
  lemma {:induction false} CauseIndexHolds(cards: map<string, Card>, steps: seq<Step>)
    ensures CausesUnique(Run(Init(cards), steps).rows)
  {
    if steps != [] {
      CauseIndexHolds(cards, steps[..|steps| - 1]);
      SlotSafety(cards, steps[..|steps| - 1]);
      StepKeepsCauses(Run(Init(cards), steps[..|steps| - 1]), steps[|steps| - 1]);
    }
  }
}
