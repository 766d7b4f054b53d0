/** What every run of a card's transactions keeps. */
module CardLogRuns {
  import opened Wrappers
  import opened CardLog

  // ---------- the log replays ----------

  /** One recorded action played through the card machine. */
  ghost function Advance(st: Option<Status>, a: Action): Option<Status> {
    if st != Some(a.from) then None
    else if IsCardTransition(a.kind) then (if Transition(a.from, a.kind) == Some(a.to) then Some(a.to) else None)
    else if a.from == a.to then Some(a.to)
    else None
  }

  ghost function Replay(init: Status, log: seq<Action>): Option<Status> {
    if log == [] then Some(init) else Advance(Replay(init, log[..|log| - 1]), log[|log| - 1])
  }

  lemma ReplayRecord(init: Status, c: Card, kind: string, from: Status, to: Status)
    ensures Replay(init, Record(c, kind, from, to).log) == Advance(Replay(init, c.log), Action(kind, from, to))
  {
    assert Record(c, kind, from, to).log[..|c.log|] == c.log;
  }

  /** A committed direct transition that read a stale status, or that superseded a suggestion. */
  ghost predicate Breaks(c: Card, e: Step) {
    e.Direct? && Outcome(c, e).Ok? && (e.seen != c.status || Supersedes(c))
  }

  ghost predicate Faithful(c: Card, steps: seq<Step>) {
    steps != [] ==>
      Faithful(c, steps[..|steps| - 1]) && !Breaks(Run(c, steps[..|steps| - 1]), steps[|steps| - 1])
  }

  lemma AcceptReplays(init: Status, c: Card)
    requires Replay(init, c.log) in {None, Some(c.status)}
    ensures AcceptTx(c).Ok? ==>
              var c' := AcceptTx(c).value;
              Replay(init, c'.log) == if Replay(init, c.log).Some? then Some(c'.status) else None
  {
    hide Replay;
    if AcceptTx(c).Ok? {
      var s := Current(c.triage).value;
      var verb := NormalizeVerb(s.verb);
      ReplayRecord(init, c, "answered", c.status, c.status);
      if verb != "go" {
        var answered := Record(c, "answered", c.status, c.status);
        var to := Transition(c.status, verb).value;
        ReplayRecord(init, answered.(status := to), verb, c.status, to);
      }
    }
  }

  lemma DirectReplays(init: Status, c: Card, e: Step)
    requires e.Direct? && DirectTx(c, e.verb, e.seen, e.wakeAt, e.wakeTask).Ok?
    requires Replay(init, c.log) in {None, Some(c.status)}
    ensures var c' := DirectTx(c, e.verb, e.seen, e.wakeAt, e.wakeTask).value;
            Replay(init, c'.log) == if Replay(init, c.log).Some? && !Breaks(c, e) then Some(c'.status) else None
  {
    hide Replay;
    var to := Transition(e.seen, e.verb).value;
    var moved := Record(c.(status := to), e.verb, e.seen, to);
    assert e.seen != to;
    TransitionVerbs(e.verb);
    ReplayRecord(init, c.(status := to), e.verb, e.seen, to);
    if Supersedes(c) {
      ReplayRecord(init, moved, "suggestion_discarded", e.seen, to);
    }
  }

  lemma StepReplays(init: Status, c: Card, e: Step)
    requires Replay(init, c.log) in {None, Some(c.status)}
    ensures Replay(init, Next(c, e).log)
         == if Replay(init, c.log).Some? && !Breaks(c, e) then Some(Next(c, e).status) else None
  {
    hide Replay;
    match e
    case Accept => AcceptReplays(init, c);
    case Reject => ReplayRecord(init, c, "answered", c.status, c.status);
    case WakeDue => ReplayRecord(init, c, "wake_due", c.status, c.status);
    case Vanished(_) => ReplayRecord(init, c, "child_closed", c.status, c.status);
    case Suggest(_) => ReplayRecord(init, c, "attrs_set", c.status, c.status);
    case Direct(verb, seen, wakeAt, wakeTask) =>
      if Outcome(c, e).Ok? {
        DirectReplays(init, c, e);
      }
  }

  /**
   A new card's log replays through the card machine to its current status exactly when no
   direct transition of the run was stale or recorded a discarded suggestion.
   */
  lemma {:induction false} LogReplaysIff(c: Card, steps: seq<Step>)
    requires c.log == []
    ensures Replay(c.status, Run(c, steps).log) == if Faithful(c, steps) then Some(Run(c, steps).status) else None
  {
    if steps != [] {
      LogReplaysIff(c, steps[..|steps| - 1]);
      StepReplays(c.status, Run(c, steps[..|steps| - 1]), steps[|steps| - 1]);
    }
  }

  /** Answers, wake records, vanished children and new suggestions alone always replay. */
  lemma {:induction false} AnsweredRunsReplay(c: Card, steps: seq<Step>)
    requires c.log == [] && forall i :: 0 <= i < |steps| ==> !steps[i].Direct?
    ensures Faithful(c, steps)
    ensures Replay(c.status, Run(c, steps).log) == Some(Run(c, steps).status)
  {
    if steps != [] {
      AnsweredRunsReplay(c, steps[..|steps| - 1]);
    }
    LogReplaysIff(c, steps);
  }

  ghost function StatusBefore(init: Status, log: seq<Action>, i: nat): Status
    requires i <= |log|
  {
    if i == 0 then init else log[i - 1].to
  }

  /** Each entry starts where the one before it ended. */
  ghost predicate Chained(init: Status, log: seq<Action>) {
    forall i :: 0 <= i < |log| ==> log[i].from == StatusBefore(init, log, i)
  }

  lemma {:induction false} ReplayChains(init: Status, log: seq<Action>)
    requires Replay(init, log).Some?
    ensures Chained(init, log)
    ensures Replay(init, log) == Some(StatusBefore(init, log, |log|))
  {
    if log != [] {
      var before := log[..|log| - 1];
      ReplayChains(init, before);
      forall i | 0 <= i < |log| ensures log[i].from == StatusBefore(init, log, i) {
        assert StatusBefore(init, before, i) == StatusBefore(init, log, i);
        assert i < |before| ==> before[i] == log[i];
      }
    }
  }

  /** Whatever the run, the last record ends in the status the card is in. */
  lemma {:induction false} LastRecordIsStatus(c: Card, steps: seq<Step>)
    requires c.log == []
    ensures var r := Run(c, steps);
            r.status == if r.log == [] then c.status else r.log[|r.log| - 1].to
  {
    if steps != [] {
      LastRecordIsStatus(c, steps[..|steps| - 1]);
      var mid, e := Run(c, steps[..|steps| - 1]), steps[|steps| - 1];
      match e {
        case Accept => AcceptRecords(mid);
        case Direct(_, _, _, _) =>
        case _ =>
      }
    }
  }

  /** A direct drop over a pending park suggestion: the discard's record breaks the chain. */
  lemma DiscardBreaksChain(c: Card, s: Suggestion)
    requires c.log == [] && c.status == Parked && Validate(s).Ok?
    requires c.triage == Some(EMPTY_TRIAGE)
    ensures var steps := [Suggest(Some(s)), Direct("drop", Parked, None, "")];
            && Run(c, steps).status == Dropped
            && !Chained(Parked, Run(c, steps).log)
  {
    var one := Suggest(Some(s));
    var two := Direct("drop", Parked, None, "");
    assert [one, two][..1] == [one] && [one][..0] == [];
    assert Run(c, []) == c;
    assert Run(c, [one]) == Next(c, one);
    var mid := Next(c, one);
    assert mid.log == [Action("attrs_set", Parked, Parked)];
    assert Supersedes(mid);
    var end := Next(mid, two);
    assert Run(c, [one, two]) == end;
    assert end.log == mid.log + [Action("drop", Parked, Dropped)] + [Action("suggestion_discarded", Parked, Dropped)];
    assert end.log[2].from != end.log[1].to;
  }

  // ---------- what an accept writes ----------

  /** A committed accept of anything but go: its answer, then the suggested transition, and that status. */
  lemma AcceptRecords(c: Card)
    ensures AcceptTx(c).Ok? ==>
              && Current(c.triage).Some?
              && var verb := NormalizeVerb(Current(c.triage).value.verb);
                 var c' := AcceptTx(c).value;
                 if verb == "go" then
                   c' == c.(log := c.log + [Action("answered", c.status, c.status)])
                 else
                   && Transition(c.status, verb) == Some(c'.status)
                   && c'.log == c.log + [Action("answered", c.status, c.status), Action(verb, c.status, c'.status)]
                   && (c'.identities == if verb == "drop" then {} else c.identities)
                   && c'.triage.Some?
                   && (verb == "park" ==> WakeFrom(c'.triage.value, Current(c.triage).value.params))
                   && (verb != "park" ==> c'.triage.value.wakeAt == c.triage.value.wakeAt
                                          && c'.triage.value.wakeTask == c.triage.value.wakeTask)
  {
    if AcceptTx(c).Ok? && NormalizeVerb(Current(c.triage).value.verb) != "go" {
      var c' := AcceptTx(c).value;
      var verb := NormalizeVerb(Current(c.triage).value.verb);
      assert c'.log == c.log + [Action("answered", c.status, c.status)] + [Action(verb, c.status, c'.status)];
    }
  }

  ghost predicate WakeFrom(t: Triage, p: Params) {
    p.Params? && t.wakeTask == p.wakeTask
    && (t.wakeAt == if p.wakeAt.At? then Some(p.wakeAt.time) else None)
  }

  // ---------- the suggestion's life ----------

  ghost predicate NoTop(c: Card) {
    c.triage.Some? && c.triage.value.detail.Detail? ==> c.triage.value.detail.top.None?
  }

  /** What attrs_set can have stored: a validated suggestion, its verb repeated in the column. */
  ghost predicate Mirrored(c: Card) {
    c.triage.Some? && c.triage.value.detail.Detail? && c.triage.value.detail.attrs.Attrs? ==>
      var s := c.triage.value.detail.attrs.suggestion;
      && (s.None? ==> c.triage.value.verbColumn == "")
      && (s.Some? ==> Validate(s.value) == Ok(s.value) && c.triage.value.verbColumn == s.value.verb)
  }

  lemma ValidateIdempotent(s: Suggestion)
    ensures Validate(s).Ok? ==> Validate(Validate(s).value) == Validate(s)
  {
  }

  lemma SidecarKept(c: Card, e: Step)
    ensures NoTop(c) ==> NoTop(Next(c, e))
    ensures Mirrored(c) ==> Mirrored(Next(c, e))
  {
    match e
    case Suggest(s) => if s.Some? { ValidateIdempotent(s.value); }
    case _ =>
  }

  /** The verb column never disagrees with the stored suggestion, over every run. */
  lemma {:induction false} SidecarInvariant(c: Card, steps: seq<Step>)
    ensures NoTop(c) ==> NoTop(Run(c, steps))
    ensures Mirrored(c) ==> Mirrored(Run(c, steps))
  {
    if steps != [] {
      SidecarInvariant(c, steps[..|steps| - 1]);
      SidecarKept(Run(c, steps[..|steps| - 1]), steps[|steps| - 1]);
    }
  }

  ghost predicate Answers(c: Card, e: Step) {
    e.Reject? || (e.Accept? && Current(c.triage).Some? && NormalizeVerb(Current(c.triage).value.verb) != "go")
  }

  /**
   An answer that commits ends the suggestion it answered if and only if the blob holds no
   suggestion at its top level: only the one among the attrs is stripped.
   */
  lemma AnsweredIsGoneIff(c: Card, e: Step)
    requires Answers(c, e) && Outcome(c, e).Ok? && Current(c.triage).Some?
    ensures Current(Next(c, e).triage).None? <==> c.triage.value.detail.top.None?
    ensures c.triage.value.detail.top.Some? ==> Current(Next(c, e).triage) == Current(c.triage)
  {
  }

  /** So a card that starts without one, as every writer leaves it, has none left after any committed answer. */
  lemma {:induction false} AnswersEndSuggestions(start: Card, steps: seq<Step>, e: Step)
    requires NoTop(start) && Answers(Run(start, steps), e) && Outcome(Run(start, steps), e).Ok?
    ensures Current(Next(Run(start, steps), e).triage).None?
  {
    SidecarInvariant(start, steps);
  }

  /** With a suggestion at the top level, which no writer puts there, accepting it drops one nobody answered. */
  lemma HiddenSuggestionLost(c: Card, top: Suggestion, hidden: Suggestion)
    requires c.status == Parked && top == Suggestion("start", Params(Unset, "")) && Validate(hidden) == Ok(hidden)
    requires c.triage == Some(Triage(Detail(Some(top), Attrs(Some(hidden)), Some([])), hidden.verb, None, ""))
    ensures var c' := Next(c, Accept);
            && c'.status == Working && Current(c'.triage) == Some(top)
            && c'.triage.value.detail.attrs == Attrs(None)
  {
  }

  /**
   In any card: only a new suggestion, a direct transition that records the discard, a
   reject, or an accept together with its transition takes the current suggestion away.
   */
  lemma SuggestionEndsWithItsAnswer(c: Card, e: Step)
    requires Current(c.triage).Some? && Current(Next(c, e).triage) != Current(c.triage)
    ensures var c' := Next(c, e);
            || e.Suggest?
            || (e.Direct? && |c'.log| == |c.log| + 2 && c'.log[|c.log| + 1].kind == "suggestion_discarded")
            || (e.Reject? && c'.log == c.log + [Action("answered", c.status, c.status)] && c'.status == c.status)
            || (e.Accept? && Transition(c.status, NormalizeVerb(Current(c.triage).value.verb)) == Some(c'.status)
                && |c'.log| == |c.log| + 2 && c'.log[|c.log| + 1].kind == NormalizeVerb(Current(c.triage).value.verb))
  {
    match e
    case Accept => AcceptRecords(c);
    case _ =>
  }

  /** A human accept of a stored suggestion commits exactly when its verb applies to the card. */
  lemma {:induction false} AcceptCommitsIff(start: Card, steps: seq<Step>)
    requires NoTop(start) && Mirrored(start)
    ensures var c := Run(start, steps);
            Current(c.triage).Some? ==>
              var verb := Current(c.triage).value.verb;
              (AcceptTx(c).Ok? <==> verb == "go" || Transition(c.status, verb).Some?)
  {
    SidecarInvariant(start, steps);
    var c := Run(start, steps);
    if Current(c.triage).Some? {
      TransitionVerbs(Current(c.triage).value.verb);
    }
  }

  // ---------- wake conditions ----------

  datatype Lookup = Missing | Found(terminal: bool) | Broken

  /** ShouldWake on a parked card; an unreadable reference is skipped for this tick. */
  predicate Due(c: Card, now: int, lookup: string -> Lookup) {
    && c.status == Parked && c.triage.Some?
    && var t := c.triage.value;
       && (t.wakeTask != "" ==> !lookup(t.wakeTask).Broken?)
       && ((t.wakeAt.Some? && t.wakeAt.value <= now)
           || (t.wakeTask != "" && (lookup(t.wakeTask).Missing? || lookup(t.wakeTask).terminal)))
  }

  /** One fault-free tick over every card. */
  function Tick(cards: map<string, Card>, now: int, lookup: string -> Lookup): map<string, Card> {
    map id | id in cards :: if Due(cards[id], now, lookup) then Next(cards[id], WakeDue) else cards[id]
  }

  /** A recorded wake is consumed: nothing is due again until somebody parks the card again. */
  lemma WakeFiresOnce(cards: map<string, Card>, now: int, lookup: string -> Lookup,
                      later: int, lookup': string -> Lookup)
    ensures forall id :: id in cards && Due(cards[id], now, lookup) ==>
            !Due(Tick(cards, now, lookup)[id], later, lookup')
    ensures Tick(Tick(cards, now, lookup), now, lookup) == Tick(cards, now, lookup)
  {
    var once := Tick(cards, now, lookup);
    forall id | id in cards ensures !Due(once[id], now, lookup) {
    }
    assert forall id :: id in once ==> Tick(once, now, lookup)[id] == once[id];
  }

  // ---------- vanished children ----------

  ghost function OpenRefs(children: seq<Child>, ref: string): nat {
    if children == [] then 0 else (if IsOpenRef(children[0], ref) then 1 else 0) + OpenRefs(children[1..], ref)
  }

  lemma {:induction false} MarkClosedCounts(children: seq<Child>, ref: string, other: string)
    ensures MarkClosed(children, ref).Some? <==> OpenRefs(children, ref) > 0
    ensures MarkClosed(children, ref).Some? ==>
              var out := MarkClosed(children, ref).value;
              && |out| == |children|
              && OpenRefs(out, ref) == OpenRefs(children, ref) - 1
              && (other != ref ==> OpenRefs(out, other) == OpenRefs(children, other))
  {
    if children != [] {
      MarkClosedCounts(children[1..], ref, other);
      if MarkClosed(children, ref).Some? {
        var out := MarkClosed(children, ref).value;
        if IsOpenRef(children[0], ref) {
          assert out[1..] == children[1..];
        } else {
          assert out[1..] == MarkClosed(children[1..], ref).value;
        }
      }
    }
  }

  ghost function Repeat(c: Card, ref: string, n: nat): Card {
    if n == 0 then c else Next(Repeat(c, ref, n - 1), Vanished(ref))
  }

  ghost function Entries(c: Card, ref: string): nat {
    if c.triage.Some? && c.triage.value.detail.Detail? && c.triage.value.detail.children.Some?
    then OpenRefs(c.triage.value.detail.children.value, ref) else 0
  }

  /** However often a vanished child is reported, one record is written per entry still open for it. */
  lemma {:induction false} VanishedRecordedOncePerEntry(c: Card, ref: string, n: nat)
    ensures var c' := Repeat(c, ref, n);
            var closed := if n <= Entries(c, ref) then n else Entries(c, ref);
            && |c'.log| == |c.log| + closed
            && Entries(c', ref) == Entries(c, ref) - closed
            && c'.status == c.status
  {
    if n > 0 {
      VanishedRecordedOncePerEntry(c, ref, n - 1);
      var mid := Repeat(c, ref, n - 1);
      if mid.triage.Some? && mid.triage.value.detail.Detail? && mid.triage.value.detail.children.Some? {
        MarkClosedCounts(mid.triage.value.detail.children.value, ref, ref);
      }
    }
  }
}
