/**
 A card's status, action log and pending suggestion, and the transactions that write them:
 answering a suggestion (internal/api/suggestion_accept.go), the wake sweep and the record
 of a vanished child (internal/api/queue_sweep.go), attaching a suggestion and a direct
 human transition (internal/api/workflow_action.go).
 */
module CardLog {
  import opened Wrappers

  datatype Status = Parked | Working | Done | Dropped

  /** A wake time as text: absent, readable or not. */
  datatype WakeTime = Unset | At(time: int) | Unreadable

  datatype Params = Params(wakeAt: WakeTime, wakeTask: string) | BadParams

  datatype Suggestion = Suggestion(verb: string, params: Params)

  datatype ChildStatus = Open | Specced | Dispatched | Closed

  datatype Child = Child(taskRef: string, status: ChildStatus)

  datatype Attrs = BadAttrs | Attrs(suggestion: Option<Suggestion>)

  /** The sidecar's blob: a suggestion may sit at its top level or among its attrs. */
  datatype Detail = Corrupt | Detail(top: Option<Suggestion>, attrs: Attrs, children: Option<seq<Child>>)

  datatype Triage = Triage(detail: Detail, verbColumn: string, wakeAt: Option<int>, wakeTask: string)

  datatype Action = Action(kind: string, from: Status, to: Status)

  datatype Card = Card(status: Status, log: seq<Action>, triage: Option<Triage>, identities: set<string>)

  const EMPTY_TRIAGE := Triage(Detail(None, Attrs(None), Some([])), "", None, "")

  // ---------- the card machine's vocabulary ----------

  function Transition(status: Status, verb: string): Option<Status> {
    match status
    case Parked =>
      if verb == "go" || verb == "start" then Some(Working)
      else if verb == "drop" then Some(Dropped)
      else if verb == "complete" then Some(Done)
      else None
    case Working =>
      if verb == "go" then Some(Working)
      else if verb == "park" then Some(Parked)
      else if verb == "complete" then Some(Done)
      else None
    case Done => if verb == "reopen" then Some(Parked) else None
    case Dropped => if verb == "reopen" then Some(Parked) else None
  }

  predicate IsCardTransition(verb: string) {
    verb in {"go", "start", "park", "drop", "complete", "reopen"}
  }

  function NormalizeVerb(verb: string): string {
    if verb == "working" then "start" else if verb == "done" then "complete" else verb
  }

  /** The closed set is the set of verbs some rule of the table moves a card by. */
  lemma TransitionVerbs(verb: string)
    ensures IsCardTransition(verb) <==> exists st :: Transition(st, verb).Some?
  {
    if IsCardTransition(verb) {
      if verb == "reopen" {
        assert Transition(Done, verb).Some?;
      } else if verb == "park" {
        assert Transition(Working, verb).Some?;
      } else {
        assert Transition(Parked, verb).Some?;
      }
    }
  }

  // ---------- reading and rewriting the sidecar ----------

  /** DetailSuggestionRaw: the top level wins over attrs. */
  function Current(t: Option<Triage>): Option<Suggestion> {
    if t.None? || t.value.detail.Corrupt? then None
    else if t.value.detail.top.Some? then t.value.detail.top
    else if t.value.detail.attrs.Attrs? then t.value.detail.attrs.suggestion
    else None
  }

  /** StripDetailAttrs and the cleared verb column; fails on a blob it cannot parse. */
  function Strip(t: Triage): Option<Triage> {
    if t.detail.Corrupt? || t.detail.attrs.BadAttrs? then None
    else Some(t.(detail := t.detail.(attrs := Attrs(None)), verbColumn := ""))
  }

  function Record(c: Card, kind: string, from: Status, to: Status): Card {
    c.(log := c.log + [Action(kind, from, to)])
  }

  function ParkWake(c: Card, wakeAt: Option<int>, wakeTask: string): Card {
    var t := if c.triage.Some? then c.triage.value else EMPTY_TRIAGE;
    c.(triage := Some(t.(wakeAt := wakeAt, wakeTask := wakeTask)))
  }

  // ---------- answering ----------

  /** applyAnsweredSideEffect; without a sidecar there is nothing to strip. */
  function StripCard(c: Card): Result<Card, nat> {
    if c.triage.None? then Ok(c)
    else if Strip(c.triage.value).None? then Err(500)
    else Ok(c.(triage := Some(Strip(c.triage.value).value)))
  }

  function RejectTx(c: Card): Result<Card, nat> {
    StripCard(Record(c, "answered", c.status, c.status))
  }

  /** The verb's own writes, park's wake condition and drop's released identities included. */
  function VerbTx(c: Card, s: Suggestion): Result<Card, nat>
    requires s.params.Params?
  {
    var verb := NormalizeVerb(s.verb);
    if Transition(c.status, verb).None? then Err(409)
    else
      var to := Transition(c.status, verb).value;
      var moved := Record(c.(status := to), verb, c.status, to);
      if verb == "park" && s.params.wakeAt.Unreadable? then Err(400)
      else if verb == "park" then
        StripCard(ParkWake(moved, if s.params.wakeAt.At? then Some(s.params.wakeAt.time) else None, s.params.wakeTask))
      else if verb == "drop" then StripCard(moved.(identities := {}))
      else StripCard(moved)
  }

  /** An accepted go commits only its record here; its transition is a later transaction. */
  function AcceptTx(c: Card): Result<Card, nat> {
    var answered := Record(c, "answered", c.status, c.status);
    match Current(c.triage)
    case None => Err(409)
    case Some(s) =>
      if s.params.BadParams? then Err(500)
      else if !IsCardTransition(NormalizeVerb(s.verb)) then Err(409)
      else if NormalizeVerb(s.verb) == "go" then Ok(answered)
      else VerbTx(answered, s)
  }

  // ---------- the sweeps' records ----------

  function WakeDueTx(c: Card): Result<Card, nat> {
    if c.triage.None? then Err(500)
    else Ok(Record(c.(triage := Some(c.triage.value.(wakeAt := None, wakeTask := ""))), "wake_due", c.status, c.status))
  }

  predicate IsOpenRef(child: Child, ref: string) {
    child.taskRef == ref && child.status != Closed
  }

  /** MarkDetailChildClosed: the first child of that reference not closed yet. */
  function MarkClosed(children: seq<Child>, ref: string): Option<seq<Child>> {
    if children == [] then None
    else if IsOpenRef(children[0], ref) then Some([children[0].(status := Closed)] + children[1..])
    else match MarkClosed(children[1..], ref)
         case None => None
         case Some(rest) => Some([children[0]] + rest)
  }

  function VanishedTx(c: Card, ref: string): Result<Card, nat> {
    if c.triage.None? then Ok(c)
    else if c.triage.value.detail.Corrupt? || c.triage.value.detail.children.None? then Err(500)
    else
      match MarkClosed(c.triage.value.detail.children.value, ref)
      case None => Ok(c)
      case Some(children) =>
        var t := c.triage.value.(detail := c.triage.value.detail.(children := Some(children)));
        Ok(Record(c.(triage := Some(t)), "child_closed", c.status, c.status))
  }

  // ---------- attaching a suggestion, and moving a card directly ----------

  /** validateSuggestionAttr: the verb is normalized and known, the wake time readable. */
  function Validate(s: Suggestion): Result<Suggestion, nat> {
    if s.params.BadParams? || !IsCardTransition(NormalizeVerb(s.verb)) || s.params.wakeAt.Unreadable? then Err(400)
    else Ok(s.(verb := NormalizeVerb(s.verb)))
  }

  /** attrs_set with a suggestion; None clears it.  A done card needs its sidecar row already. */
  function SuggestTx(c: Card, s: Option<Suggestion>): Result<Card, nat> {
    if s.Some? && Validate(s.value).Err? then Err(400)
    else if c.status == Done && c.triage.None? then Err(409)
    else
      var t := if c.triage.Some? then c.triage.value else EMPTY_TRIAGE;
      if t.detail.Corrupt? || t.detail.attrs.BadAttrs? then Err(500)
      else
        var stored := if s.Some? then Some(Validate(s.value).value) else None;
        var column := if s.Some? then NormalizeVerb(s.value.verb) else "";
        Ok(Record(c, "attrs_set", c.status, c.status).(
             triage := Some(t.(detail := t.detail.(attrs := Attrs(stored)), verbColumn := column))))
  }

  predicate Supersedes(c: Card) {
    Current(c.triage).Some? && Current(c.triage).value.verb != ""
  }

  /** recordAndStripSuggestionIfPresent: the discard repeats the transition's own from and to. */
  function DiscardTx(c: Card, from: Status, to: Status): Result<Card, nat> {
    if Supersedes(c) then StripCard(Record(c, "suggestion_discarded", from, to)) else Ok(c)
  }

  /**
   A direct transition other than go.  The status it moves from is the one read before the
   transaction opened, and the row is overwritten with it.
   */
  function DirectTx(c: Card, verb: string, seen: Status, wakeAt: Option<int>, wakeTask: string): Result<Card, nat> {
    if verb == "go" || Transition(seen, verb).None? then Err(409)
    else
      var to := Transition(seen, verb).value;
      match DiscardTx(Record(c.(status := to), verb, seen, to), seen, to)
      case Err(code) => Err(code)
      case Ok(moved) =>
        if verb == "park" then Ok(ParkWake(moved, wakeAt, wakeTask))
        else if verb == "drop" then Ok(moved.(identities := {}))
        else Ok(moved)
  }

  datatype Step =
    | Accept
    | Reject
    | WakeDue
    | Vanished(ref: string)
    | Suggest(suggestion: Option<Suggestion>)
    | Direct(verb: string, seen: Status, wakeAt: Option<int>, wakeTask: string)

  function Outcome(c: Card, e: Step): Result<Card, nat> {
    match e
    case Accept => AcceptTx(c)
    case Reject => RejectTx(c)
    case WakeDue => WakeDueTx(c)
    case Vanished(ref) => VanishedTx(c, ref)
    case Suggest(s) => SuggestTx(c, s)
    case Direct(verb, seen, wakeAt, wakeTask) => DirectTx(c, verb, seen, wakeAt, wakeTask)
  }

  /** A transaction that fails is rolled back. */
  function Next(c: Card, e: Step): Card {
    match Outcome(c, e) case Ok(c') => c' case Err(_) => c
  }

  function Run(c: Card, steps: seq<Step>): Card {
    if steps == [] then c else Next(Run(c, steps[..|steps| - 1]), steps[|steps| - 1])
  }
}
