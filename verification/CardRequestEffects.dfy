/** What each transaction of the card ledger does, told on rows, cards and barriers. */
module CardRequestEffects {
  import opened Wrappers
  import opened CardRequests
  import opened CardSlotRuns

  // ---------- entering ----------

  /** The card exists, is parked or working, and its detail can be read. */
  ghost predicate Usable(s: Ledger, card: string) {
    card in s.cards && s.cards[card].status in {Parked, Working} && s.cards[card].detailOk
  }

  ghost predicate NoActiveRow(s: Ledger, card: string) {
    forall i :: 0 <= i < |s.rows| && s.rows[i].card == card ==> s.rows[i].status !in {Launching, Attached}
  }

  /** A human command gets the slot exactly of a usable card with no open child and no active request. */
  lemma ReservedIff(s: Ledger, card: string)
    ensures Reserve(s, card).Reserved? <==> Usable(s, card) && s.cards[card].openChildren == 0 && NoActiveRow(s, card)
    ensures Reserve(s, card) == OccupiedByRequest <==>
            Usable(s, card) && s.cards[card].openChildren == 0 && !NoActiveRow(s, card)
    ensures Reserve(s, card).OccupiedByChild? <==> Usable(s, card) && s.cards[card].openChildren > 0
    ensures Reserve(s, card).OccupiedByChild? ==> Reserve(s, card).child == s.cards[card].liveChild
    ensures Reserve(s, card).Abort? <==> !Usable(s, card)
    ensures card in s.cards && s.cards[card].status in {CardDone, Dropped} ==> Reserve(s, card) == Abort(409)
    ensures card !in s.cards || (Eligible(s, card) && !s.cards[card].detailOk) ==> Reserve(s, card) == Abort(500)
  {
  }

  /** The row a step adds, if it adds one. */
  ghost predicate Adds(s: Ledger, s': Ledger, r: Request) {
    s'.rows == s.rows + [r]
  }

  /** Rows are added by a reservation of a free card without open children, and by an event with a new cause. */
  lemma RowAddedOnlyBy(s: Ledger, e: Step)
    requires |Next(s, e).rows| > |s.rows|
    ensures || (e.DoReserve? && Usable(s, e.card) && s.cards[e.card].openChildren == 0 && NoActiveRow(s, e.card)
                && Adds(s, Next(s, e), Request(e.id, e.card, e.command, "", Launching, e.job, "", "", "")))
            || (e.DoEnqueue? && (e.cause == "" || forall i :: 0 <= i < |s.rows| && s.rows[i].cause == e.cause ==>
                                                   s.rows[i].status == Failed)
                && Adds(s, Next(s, e), Request(e.id, e.card, e.command, e.cause, Queued, "", "", "", "")))
  {
    if e.DoCollect? {
      KeptShrinks(s.rows, e.aged);
    }
  }

  lemma {:induction false} KeptShrinks(rows: seq<Request>, aged: set<string>)
    ensures |Kept(rows, aged)| <= |rows|
  {
    if rows != [] {
      KeptShrinks(rows[..|rows| - 1], aged);
    }
  }

  /** A reservation of such a card, and an event whose cause no live request has, do add theirs. */
  lemma RowIsAdded(s: Ledger, card: string, command: string, cause: string, id: string, job: string)
    requires id != "" && job != "" && id !in s.gone && forall i :: 0 <= i < |s.rows| ==> s.rows[i].id != id
    ensures Usable(s, card) && s.cards[card].openChildren == 0 && NoActiveRow(s, card) ==>
              && Adds(s, HumanReserve(s, card, command, id, job),
                      Request(id, card, command, "", Launching, job, "", "", ""))
              && HumanReserve(s, card, command, id, job).barriers == s.barriers - {card}
    ensures (cause == ""
             || forall i :: 0 <= i < |s.rows| && s.rows[i].cause == cause ==> s.rows[i].status == Failed) ==>
              Adds(s, Enqueue(s, card, command, cause, id), Request(id, card, command, cause, Queued, "", "", "", ""))
  {
  }

  /** An occupied card's command adds nothing and still lifts the barrier. */
  lemma OccupiedCommandAddsNothing(s: Ledger, card: string, command: string, id: string, job: string)
    requires FreshId(s, id) && job != "" && Usable(s, card)
    requires s.cards[card].openChildren > 0 || !NoActiveRow(s, card)
    ensures HumanReserve(s, card, command, id, job) ==
            s.(barriers := s.barriers - {card}, log := s.log + [HumanTouch(card)])
  {
  }

  // ---------- the automatic claim ----------

  /** The oldest queued row of the card, told on rows. */
  ghost predicate Head(s: Ledger, card: string, k: nat) {
    && k < |s.rows| && s.rows[k].card == card && s.rows[k].status == Queued
    && forall i :: 0 <= i < k && s.rows[i].card == card ==> s.rows[i].status != Queued
  }

  /** A launch is recorded exactly for a parked or working, unbarred, free card whose oldest request names it. */
  lemma ClaimLaunchesIff(s: Ledger, card: string, command: string, job: string)
    ensures Claim(s, card, command, job).log == s.log + [AutoLaunch(card)] <==>
            && job != "" && card in s.cards && s.cards[card].status in {Parked, Working} && card !in s.barriers
            && NoActiveRow(s, card) && exists k: nat :: Head(s, card, k) && s.rows[k].command == command
  {
    OldestIsQueued(s.rows, card, 0);
    assert |s.log + [AutoLaunch(card)]| == |s.log| + 1;
    if k: nat :| Head(s, card, k) && s.rows[k].command == command {
      assert Oldest(s.rows, card) == Some(k);
    }
    if CanClaim(s, card, command, job) {
      assert Head(s, card, Oldest(s.rows, card).value);
    }
  }

  /** A card past parked and working has its backlog failed; otherwise a claim that cannot be made changes nothing. */
  lemma ClaimOtherwise(s: Ledger, card: string, command: string, job: string)
    requires !CanClaim(s, card, command, job)
    ensures var s' := Claim(s, card, command, job);
            && s'.cards == s.cards && s'.barriers == s.barriers && s'.log == s.log && |s'.rows| == |s.rows|
            && (card in s.cards && s.cards[card].status in {Parked, Working} ==> s' == s)
            && (card !in s.cards || s.cards[card].status in {CardDone, Dropped} ==>
                  forall i :: 0 <= i < |s.rows| ==>
                    s'.rows[i] == if s.rows[i].card == card && s.rows[i].status == Queued
                                  then s.rows[i].(status := Failed) else s.rows[i])
  {
  }

  // ---------- attaching, failing, retrying ----------

  /** Only the launcher that holds a launching request attaches its target to it. */
  lemma AttachEffect(s: Ledger, k: nat, id: string, job: string, kind: string, target: string)
    requires UniqueIds(s.rows) && k < |s.rows|
    ensures var s' := Attach(s, id, job, kind, target);
            && s' == s.(rows := s'.rows) && |s'.rows| == |s.rows|
            && s'.rows[k] == if s.rows[k].id == id && s.rows[k].status == Launching && s.rows[k].launcher == job
                             then s.rows[k].(status := Attached, targetKind := kind, targetID := target) else s.rows[k]
  {
  }

  /** A failure fails the live request it names and queues again what that one carried. */
  lemma FailEffect(s: Ledger, k: nat)
    requires SlotInv(s.rows) && k < |s.rows|
    ensures var s' := Fail(s, s.rows[k].id);
            && s' == s.(rows := s'.rows) && |s'.rows| == |s.rows|
            && (s.rows[k].status in {Folded, Succeeded, Failed} ==> s' == s)
            && (s.rows[k].status in {Queued, Launching, Attached} ==>
                  forall i :: 0 <= i < |s.rows| ==>
                    s'.rows[i] == if i == k then s.rows[i].(status := Failed)
                                  else if Carries(s.rows, k, i) then s.rows[i].(status := Queued, foldedInto := "")
                                  else s.rows[i])
    ensures Fail(s, "") == s && ForceRelease(s, "") == s
  {
    var id := s.rows[k].id;
    assert forall i :: 0 <= i < |s.rows| && i != k ==> s.rows[i].id != id;
    assert CanFail(s, id) <==> s.rows[k].status in {Queued, Launching, Attached};
  }

  /** A failed request is queued afresh unless its cause has another live request, and then its card is unbarred. */
  lemma RetryEffect(s: Ledger, k: nat)
    requires k < |s.rows|
    ensures var r := s.rows[k];
            var free := r.cause == ""
                        || forall i :: 0 <= i < |s.rows| && s.rows[i].cause == r.cause ==> s.rows[i].status == Failed;
            Retry(s, k) == if r.status == Failed && free then
                             Ledger(s.rows[k := Request(r.id, r.card, r.command, r.cause, Queued, "", "", "",
                                                        r.foldedInto)],
                                    s.cards, s.barriers - {r.card}, s.log + [HumanTouch(r.card)], s.gone)
                           else s
  {
  }

  /** The collector takes exactly the aged rows that succeeded or failed. */
  lemma CollectEffect(s: Ledger, aged: set<string>, r: Request)
    requires r in s.rows
    ensures r in Collect(s, aged).rows <==> !(r.id in aged && r.status in {Succeeded, Failed})
    ensures Collect(s, aged).cards == s.cards && Collect(s, aged).barriers == s.barriers
    ensures Collect(s, aged).log == s.log
  {
    var i :| 0 <= i < |s.rows| && s.rows[i] == r;
    if !Collectable(r, aged) {
      var a := KeptHas(s.rows, aged, i);
    } else if r in Collect(s, aged).rows {
      var a :| 0 <= a < |Kept(s.rows, aged)| && Kept(s.rows, aged)[a] == r;
      var j := KeptAt(s.rows, aged, a);
    }
  }
}
