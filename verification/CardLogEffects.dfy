/** What each transaction on a card does, told on the card itself. */
module CardLogEffects {
  import opened Wrappers
  import opened CardLog
  import opened CardLogRuns

  // ---------- the vocabulary ----------

  /** The nine moves of the card machine. */
  lemma TransitionTable(from: Status, verb: string, to: Status)
    ensures Transition(from, verb) == Some(to) <==>
            (from, verb, to) in {(Parked, "go", Working), (Working, "go", Working), (Parked, "start", Working),
                                 (Parked, "drop", Dropped), (Parked, "complete", Done), (Working, "park", Parked),
                                 (Working, "complete", Done), (Done, "reopen", Parked), (Dropped, "reopen", Parked)}
  {
  }

  /** Two retired spellings read as their current names, every other verb as itself. */
  lemma RetiredSpellings(verb: string)
    ensures NormalizeVerb("working") == "start" && NormalizeVerb("done") == "complete"
    ensures verb != "working" && verb != "done" ==> NormalizeVerb(verb) == verb
  {
  }

  /** A suggestion is stored exactly if its params parse, its verb is known in either spelling and its time reads. */
  lemma ValidatedIff(s: Suggestion)
    ensures Validate(s).Ok? <==>
            && s.params.Params? && s.params.wakeAt != Unreadable
            && s.verb in {"go", "start", "park", "drop", "complete", "reopen", "working", "done"}
    ensures Validate(s).Ok? ==> Validate(s).value == Suggestion(NormalizeVerb(s.verb), s.params)
    ensures Validate(s).Err? ==> Validate(s).error == 400
  {
  }

  // ---------- answering ----------

  /** The sidecar with the attrs' suggestion and its column cleared and nothing else touched. */
  ghost function Cleared(t: Triage): Triage
    requires t.detail.Detail?
  {
    Triage(Detail(t.detail.top, Attrs(None), t.detail.children), "", t.wakeAt, t.wakeTask)
  }

  /** The sidecar can be parsed down to its attrs. */
  ghost predicate Readable(t: Triage) {
    t.detail.Detail? && t.detail.attrs.Attrs?
  }

  /** A reject commits exactly if there is no sidecar or a readable one, and clears the stored suggestion only. */
  lemma RejectEffect(c: Card)
    ensures RejectTx(c).Ok? <==> c.triage.None? || Readable(c.triage.value)
    ensures RejectTx(c).Err? ==> RejectTx(c).error == 500
    ensures RejectTx(c).Ok? ==>
              RejectTx(c).value == Card(c.status, c.log + [Action("answered", c.status, c.status)],
                                        if c.triage.None? then None else Some(Cleared(c.triage.value)), c.identities)
  {
  }

  ghost function ReadTime(w: WakeTime): Option<int> {
    match w case At(t) => Some(t) case _ => None
  }

  /** What accepting suggestion s of card c leads to; the status is the machine's. */
  ghost function Accepted(c: Card, s: Suggestion, verb: string, to: Status): Card
    requires c.triage.Some? && c.triage.value.detail.Detail? && s.params.Params?
  {
    var t := Cleared(c.triage.value);
    Card(to, c.log + [Action("answered", c.status, c.status), Action(verb, c.status, to)],
         Some(if verb == "park" then t.(wakeAt := ReadTime(s.params.wakeAt), wakeTask := s.params.wakeTask) else t),
         if verb == "drop" then {} else c.identities)
  }

  /** A committed accept is exactly that card; children and the top level of the sidecar are untouched. */
  lemma AcceptEffect(c: Card, s: Suggestion, to: Status)
    requires Current(c.triage) == Some(s) && s.params.Params? && Readable(c.triage.value)
    requires NormalizeVerb(s.verb) != "go" && Transition(c.status, NormalizeVerb(s.verb)) == Some(to)
    requires NormalizeVerb(s.verb) == "park" ==> s.params.wakeAt != Unreadable
    ensures AcceptTx(c) == Ok(Accepted(c, s, NormalizeVerb(s.verb), to))
  {
    TransitionVerbs(NormalizeVerb(s.verb));
    var verb := NormalizeVerb(s.verb);
    assert c.log + [Action("answered", c.status, c.status)] + [Action(verb, c.status, to)]
        == c.log + [Action("answered", c.status, c.status), Action(verb, c.status, to)];
  }

  /** An accepted go records its answer and keeps the suggestion. */
  lemma AcceptGoEffect(c: Card, s: Suggestion)
    requires Current(c.triage) == Some(s) && s.params.Params? && s.verb == "go"
    ensures AcceptTx(c) == Ok(Card(c.status, c.log + [Action("answered", c.status, c.status)], c.triage, c.identities))
  {
  }

  /** Every other accept is refused: nothing to accept, or a verb that is unknown or does not apply, is a conflict. */
  lemma AcceptRefusals(c: Card)
    ensures Current(c.triage).None? ==> AcceptTx(c) == Err(409)
    ensures Current(c.triage).Some? ==>
              var s := Current(c.triage).value;
              var verb := NormalizeVerb(s.verb);
              && (s.params.BadParams? ==> AcceptTx(c) == Err(500))
              && (s.params.Params? && verb !in {"go", "start", "park", "drop", "complete", "reopen"} ==>
                    AcceptTx(c) == Err(409))
              && (s.params.Params? && verb != "go" && Transition(c.status, verb).None? ==> AcceptTx(c) == Err(409))
              && (s.params.Params? && verb == "park" && c.status == Working && s.params.wakeAt == Unreadable ==>
                    AcceptTx(c) == Err(400))
              && ((s.params.Params? && verb in {"start", "drop", "complete", "reopen"}
                   && Transition(c.status, verb).Some? && !Readable(c.triage.value)) ==> AcceptTx(c) == Err(500))
  {
  }

  /** The suggestion at the top level wins over the one among the attrs. */
  lemma CurrentIs(top: Option<Suggestion>, attrs: Attrs, children: Option<seq<Child>>, t: Triage)
    requires t.detail == Detail(top, attrs, children)
    ensures top.Some? ==> Current(Some(t)) == top
    ensures top.None? ==> Current(Some(t)) == match attrs case BadAttrs => None case Attrs(s) => s
    ensures Current(None) == None && Current(Some(t.(detail := Corrupt))) == None
  {
  }

  // ---------- the other writers ----------

  /** A stored or cleared suggestion and its column, on a sidecar made if need be. */
  lemma SuggestEffect(c: Card, s: Option<Suggestion>)
    requires s.Some? ==> Validate(s.value).Ok?
    requires c.triage.Some? ==> Readable(c.triage.value)
    ensures c.status == Done && c.triage.None? ==> SuggestTx(c, s) == Err(409)
    ensures !(c.status == Done && c.triage.None?) ==>
              var t := if c.triage.Some? then c.triage.value
                       else Triage(Detail(None, Attrs(None), Some([])), "", None, "");
              var stored := if s.Some? then Some(Suggestion(NormalizeVerb(s.value.verb), s.value.params)) else None;
              SuggestTx(c, s) ==
              Ok(Card(c.status, c.log + [Action("attrs_set", c.status, c.status)],
                      Some(Triage(Detail(t.detail.top, Attrs(stored), t.detail.children),
                                  if s.Some? then NormalizeVerb(s.value.verb) else "", t.wakeAt, t.wakeTask)),
                      c.identities))
  {
  }

  /** Refused otherwise: a bad suggestion, a done card without a sidecar, or one that cannot be read. */
  lemma SuggestRefusals(c: Card, s: Option<Suggestion>)
    ensures s.Some? && Validate(s.value).Err? ==> SuggestTx(c, s) == Err(400)
    ensures (s.Some? ==> Validate(s.value).Ok?) && c.triage.Some? && !Readable(c.triage.value) ==>
              SuggestTx(c, s) == Err(500)
  {
  }

  /** A direct move of a card with no suggestion pending: one record, the verb's own effect, nothing else. */
  lemma DirectEffect(c: Card, verb: string, seen: Status, to: Status, wakeAt: Option<int>, wakeTask: string)
    requires verb != "go" && Transition(seen, verb) == Some(to) && Current(c.triage).None?
    ensures var t := if c.triage.Some? then c.triage.value
                     else Triage(Detail(None, Attrs(None), Some([])), "", None, "");
            DirectTx(c, verb, seen, wakeAt, wakeTask) ==
            Ok(Card(to, c.log + [Action(verb, seen, to)],
                    if verb == "park" then Some(Triage(t.detail, t.verbColumn, wakeAt, wakeTask)) else c.triage,
                    if verb == "drop" then {} else c.identities))
  {
  }

  /** Over a pending suggestion it also records the discard and clears the stored one. */
  lemma DirectDiscards(c: Card, verb: string, seen: Status, to: Status, wakeAt: Option<int>, wakeTask: string)
    requires verb != "go" && Transition(seen, verb) == Some(to)
    requires Current(c.triage).Some? && Current(c.triage).value.verb != "" && Readable(c.triage.value)
    ensures var t := Cleared(c.triage.value);
            DirectTx(c, verb, seen, wakeAt, wakeTask) ==
            Ok(Card(to, c.log + [Action(verb, seen, to)] + [Action("suggestion_discarded", seen, to)],
                    Some(if verb == "park" then t.(wakeAt := wakeAt, wakeTask := wakeTask) else t),
                    if verb == "drop" then {} else c.identities))
  {
  }

  /** A move the machine does not have is a conflict. */
  lemma DirectRefused(c: Card, verb: string, seen: Status, wakeAt: Option<int>, wakeTask: string)
    requires Transition(seen, verb).None?
    ensures DirectTx(c, verb, seen, wakeAt, wakeTask) == Err(409)
  {
  }

  /** A wake record clears the wake condition and nothing else of the sidecar. */
  lemma WakeEffect(c: Card)
    requires c.triage.Some?
    ensures var t := c.triage.value;
            WakeDueTx(c) == Ok(Card(c.status, c.log + [Action("wake_due", c.status, c.status)],
                                    Some(Triage(t.detail, t.verbColumn, None, "")), c.identities))
  {
  }

  /** A sweep that finds the sidecar gone or unreadable. */
  lemma SweepRefusals(c: Card, ref: string)
    ensures c.triage.None? ==> WakeDueTx(c) == Err(500) && VanishedTx(c, ref) == Ok(c)
    ensures c.triage.Some? && (c.triage.value.detail.Corrupt? || c.triage.value.detail.children.None?) ==>
              VanishedTx(c, ref) == Err(500)
  {
  }

  /** A parked card is due once its time has come or its task has ended or vanished. */
  lemma DueIff(c: Card, now: int, lookup: string -> Lookup)
    requires c.status == Parked && c.triage.Some?
    ensures var at, task := c.triage.value.wakeAt, c.triage.value.wakeTask;
            && (task == "" ==> (Due(c, now, lookup) <==> exists t :: at == Some(t) && t <= now))
            && (task != "" && lookup(task) == Missing ==> Due(c, now, lookup))
            && (task != "" && lookup(task) == Found(true) ==> Due(c, now, lookup))
            && (task != "" && lookup(task) == Found(false) ==>
                  (Due(c, now, lookup) <==> exists t :: at == Some(t) && t <= now))
            && (task != "" && lookup(task) == Broken ==> !Due(c, now, lookup))
  {
    var at := c.triage.value.wakeAt;
    if at.Some? && at.value <= now {
      assert at == Some(at.value) && at.value <= now;
    }
  }

  lemma NeverDue(c: Card, now: int, lookup: string -> Lookup)
    requires c.status != Parked || c.triage.None?
    ensures !Due(c, now, lookup)
  {
  }

  // ---------- children ----------

  ghost function Children(c: Card): Option<seq<Child>> {
    if c.triage.Some? && c.triage.value.detail.Detail? then c.triage.value.detail.children else None
  }

  /** No step but a vanished child's record touches the children; a new sidecar starts without any. */
  lemma ChildrenKept(c: Card, e: Step)
    requires !e.Vanished?
    ensures Children(Next(c, e)) == Children(c) || (c.triage.None? && Children(Next(c, e)) == Some([]))
  {
  }

  /** Over every step the open entries of a reference change only by its own vanished record, and then by one. */
  lemma OpenEntriesChangeOnlyBy(c: Card, e: Step, ref: string)
    ensures e != Vanished(ref) ==> Entries(Next(c, e), ref) == Entries(c, ref)
    ensures e == Vanished(ref) ==>
              Entries(Next(c, e), ref) == if Entries(c, ref) > 0 then Entries(c, ref) - 1 else 0
  {
    if e.Vanished? {
      if Children(c).Some? {
        MarkClosedCounts(Children(c).value, e.ref, ref);
      }
    } else {
      ChildrenKept(c, e);
    }
  }

  /** Over runs: an open entry is still open unless its reference was reported vanished. */
  lemma {:induction false} OpenEntriesOverRuns(c: Card, steps: seq<Step>, ref: string)
    requires forall i :: 0 <= i < |steps| ==> steps[i] != Vanished(ref)
    ensures Entries(Run(c, steps), ref) == Entries(c, ref)
  {
    hide Next, Entries;
    if steps != [] {
      OpenEntriesOverRuns(c, steps[..|steps| - 1], ref);
      OpenEntriesChangeOnlyBy(Run(c, steps[..|steps| - 1]), steps[|steps| - 1], ref);
    }
  }
}
