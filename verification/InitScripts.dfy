/**
 A workspace's init.sh and its row (internal/api/project_service_init_script.go and the
 workspace half of internal/api/project_service.go).  A call's unlocked precheck and its
 phase under the service mutex are separate steps, so other calls fall between them.
 */
module InitScripts {
  import opened Wrappers

  type Bytes = seq<byte>

  const MAX_BYTES: nat := 128 * 1024

  /** The ETag: a content hash, taken to be injective, or the absent sentinel. */
  datatype Revision = Absent | Hash(content: Bytes)

  datatype Row = Row(meta: string, stamp: nat, version: nat)

  /** What a client holds after reading a row: its revision, and which version that was. */
  datatype Read = Read(slug: string, stamp: nat, version: nat)

  datatype SetCall = SetCall(slug: string, content: Bytes, ifMatch: Option<Revision>, force: bool)

  /** A client's read of a script. */
  datatype ScriptRead = ScriptRead(slug: string, content: Option<Bytes>)

  /** An update's readers are the versions read so far under the revision it names. */
  datatype Event =
    | ScriptWrite(call: SetCall, before: Option<Bytes>, after: Option<Bytes>)
    | RowUpdate(slug: string, ifMatch: nat, replaced: nat, readers: set<nat>)

  datatype State = State(
    rows: map<string, Row>, scripts: map<string, Bytes>, pending: seq<SetCall>,
    held: seq<Read>, scriptReads: seq<ScriptRead>, versions: nat, orphans: set<string>, log: seq<Event>)

  datatype ScriptAction = Written | Cleared | Unchanged

  predicate ValidContent(content: Bytes) {
    |content| <= MAX_BYTES && 0 !in content
  }

  function Stored(scripts: map<string, Bytes>, slug: string): Option<Bytes> {
    if slug in scripts then Some(scripts[slug]) else None
  }

  function RevisionOf(content: Option<Bytes>): Revision {
    if content.None? then Absent else Hash(content.value)
  }

  // ---------- writing a script ----------

  /** writeWorkspaceInitScriptLocked: no bytes mean no script. */
  function WriteScript(scripts: map<string, Bytes>, slug: string, content: Bytes): (map<string, Bytes>, ScriptAction) {
    if content == [] then (scripts - {slug}, if slug in scripts then Cleared else Unchanged)
    else (scripts[slug := content], if Stored(scripts, slug) == Some(content) then Unchanged else Written)
  }

  /** The dry run's own three-way switch. */
  function PredictScript(scripts: map<string, Bytes>, slug: string, content: Bytes): ScriptAction {
    if content == [] then (if slug in scripts then Cleared else Unchanged)
    else if slug in scripts && scripts[slug] == content then Unchanged
    else Written
  }

  /** exportWorkspaceInitScript: an absent script exports as no bytes. */
  function ExportScript(scripts: map<string, Bytes>, slug: string): Bytes {
    if slug in scripts then scripts[slug] else []
  }

  /** The locked phase's refusals, in order; 200 is the write's own code. */
  function SetCode(s: State, c: SetCall): nat {
    if c.slug !in s.rows then 404
    else if !c.force && c.ifMatch.None? then 428
    else if !c.force && c.ifMatch.value != RevisionOf(Stored(s.scripts, c.slug)) then 412
    else 200
  }

  /** SetWorkspaceInitScript before the lock. */
  function PrecheckCode(s: State, c: SetCall): nat {
    if c.slug !in s.rows then 404 else if !ValidContent(c.content) then 400 else 200
  }

  function BeginSet(s: State, c: SetCall): State {
    if PrecheckCode(s, c) == 200 then s.(pending := s.pending + [c]) else s
  }

  /** SetWorkspaceInitScript under the lock; a failing store write changes nothing. */
  function FinishSet(s: State, k: nat, writeOk: bool): State {
    if k >= |s.pending| then s
    else
      var c := s.pending[k];
      var rest := s.(pending := s.pending[..k] + s.pending[k + 1..]);
      if SetCode(s, c) != 200 || !writeOk then rest
      else
        var scripts := WriteScript(s.scripts, c.slug, c.content).0;
        rest.(scripts := scripts, log := s.log + [ScriptWrite(c, Stored(s.scripts, c.slug), Stored(scripts, c.slug))])
  }

  // ---------- rows ----------

  /** Each write of a row is a new version under the clock's current stamp. */
  function PutRow(s: State, slug: string, meta: string, stamp: nat): State {
    s.(rows := s.rows[slug := Row(meta, stamp, s.versions)], versions := s.versions + 1, orphans := s.orphans - {slug})
  }

  function CreateRow(s: State, slug: string, meta: string, stamp: nat): State {
    if slug in s.rows then s else PutRow(s, slug, meta, stamp)
  }

  function ReadRow(s: State, slug: string): State {
    if slug in s.rows then s.(held := s.held + [Read(slug, s.rows[slug].stamp, s.rows[slug].version)]) else s
  }

  function ReadScript(s: State, slug: string): State {
    if slug in s.rows then s.(scriptReads := s.scriptReads + [ScriptRead(slug, Stored(s.scripts, slug))]) else s
  }

  function Readers(held: seq<Read>, slug: string, stamp: nat): set<nat> {
    set k | 0 <= k < |held| && held[k].slug == slug && held[k].stamp == stamp :: held[k].version
  }

  /** UpdateWorkspace without force: compare and swap on whatever revision the caller names. */
  function UpdateRow(s: State, slug: string, ifMatch: nat, meta: string, stamp: nat): State {
    if slug in s.rows && s.rows[slug].stamp == ifMatch then
      PutRow(s, slug, meta, stamp).(
        log := s.log + [RowUpdate(slug, ifMatch, s.rows[slug].version, Readers(s.held, slug, ifMatch))])
    else s
  }

  function ForceUpdateRow(s: State, slug: string, meta: string, stamp: nat): State {
    if slug in s.rows then PutRow(s, slug, meta, stamp) else s
  }

  /** ApplyWorkspace: the row commits first, then the script; meta is the merged document. */
  function ApplyDocument(s: State, slug: string, meta: string, script: Option<Bytes>, stamp: nat, scriptOk: bool):
    State
  {
    if script.Some? && !ValidContent(script.value) then s
    else
      var committed := PutRow(s, slug, meta, stamp);
      if script.None? || !scriptOk then committed
      else committed.(scripts := WriteScript(s.scripts, slug, script.value).0)
  }

  /** RemoveWorkspace; an init.sh that cannot be unlinked outlives its row. */
  function RemoveRow(s: State, slug: string, unlinkOk: bool): State {
    if slug == DEFAULT_SLUG || slug !in s.rows then s
    else if unlinkOk then s.(rows := s.rows - {slug}, scripts := s.scripts - {slug})
    else s.(rows := s.rows - {slug}, orphans := if slug in s.scripts then s.orphans + {slug} else s.orphans)
  }

  datatype Step =
    | DoBeginSet(call: SetCall)
    | DoFinishSet(k: nat, writeOk: bool)
    | DoCreate(slug: string, meta: string, stamp: nat)
    | DoRead(slug: string)
    | DoReadScript(slug: string)
    | DoUpdate(slug: string, ifMatch: nat, meta: string, stamp: nat)
    | DoForceUpdate(slug: string, meta: string, stamp: nat)
    | DoApply(slug: string, meta: string, script: Option<Bytes>, stamp: nat, scriptOk: bool)
    | DoRemove(slug: string, unlinkOk: bool)

  function Next(s: State, e: Step): State {
    match e
    case DoBeginSet(c) => BeginSet(s, c)
    case DoFinishSet(k, ok) => FinishSet(s, k, ok)
    case DoCreate(slug, meta, stamp) => CreateRow(s, slug, meta, stamp)
    case DoRead(slug) => ReadRow(s, slug)
    case DoReadScript(slug) => ReadScript(s, slug)
    case DoUpdate(slug, ifMatch, meta, stamp) => UpdateRow(s, slug, ifMatch, meta, stamp)
    case DoForceUpdate(slug, meta, stamp) => ForceUpdateRow(s, slug, meta, stamp)
    case DoApply(slug, meta, script, stamp, ok) => ApplyDocument(s, slug, meta, script, stamp, ok)
    case DoRemove(slug, ok) => RemoveRow(s, slug, ok)
  }

  function Run(s: State, steps: seq<Step>): State {
    if steps == [] then s else Next(Run(s, steps[..|steps| - 1]), steps[|steps| - 1])
  }

  function Init(): State {
    State(map[DEFAULT_SLUG := Row("", 0, 0)], map[], [], [], [], 1, {}, [])
  }

  // ---------- scripts and rows stay together ----------

  /** A script without a row is exactly one whose unlink failed when its workspace was removed. */
  ghost predicate OrphansExplained(s: State) {
    forall slug :: slug in s.orphans <==> slug in s.scripts && slug !in s.rows
  }

  /** Every stored script is one an entry point would accept, and none is empty. */
  ghost predicate ScriptsProper(s: State) {
    && (forall slug :: slug in s.scripts ==> s.scripts[slug] != [] && ValidContent(s.scripts[slug]))
    && (forall k :: 0 <= k < |s.pending| ==> ValidContent(s.pending[k].content))
  }

  lemma StepKeepsScripts(s: State, e: Step)
    requires OrphansExplained(s) && ScriptsProper(s)
    ensures OrphansExplained(Next(s, e)) && ScriptsProper(Next(s, e))
  {
  }

  /**
   Under every interleaving of prechecks, writes, applies and removals: a stored init.sh
   implies its workspace row, save for the removals whose unlink failed, exactly those.
   */
  lemma {:induction false} ScriptImpliesRow(steps: seq<Step>)
    ensures OrphansExplained(Run(Init(), steps)) && ScriptsProper(Run(Init(), steps))
  {
    if steps != [] {
      ScriptImpliesRow(steps[..|steps| - 1]);
      StepKeepsScripts(Run(Init(), steps[..|steps| - 1]), steps[|steps| - 1]);
    }
  }

  lemma {:induction false} CleanUnlinksLeaveNoOrphan(steps: seq<Step>)
    requires forall i :: 0 <= i < |steps| && steps[i].DoRemove? ==> steps[i].unlinkOk
    ensures Run(Init(), steps).orphans == {}
    ensures Run(Init(), steps).scripts.Keys <= Run(Init(), steps).rows.Keys
  {
    if steps != [] {
      CleanUnlinksLeaveNoOrphan(steps[..|steps| - 1]);
    }
    ScriptImpliesRow(steps);
  }

  /** A precheck that passed is no licence: the row may be gone when the lock is taken. */
  lemma LateWriteIsRefused(s: State, c: SetCall, unlinkOk: bool, writeOk: bool)
    requires PrecheckCode(s, c) == 200 && c.slug != DEFAULT_SLUG && s.pending == []
    ensures var late := RemoveRow(BeginSet(s, c), c.slug, unlinkOk);
            && SetCode(late, c) == 404
            && FinishSet(late, 0, writeOk).scripts == late.scripts
  {
  }

  // ---------- no lost update ----------

  /** Unforced writes replaced exactly the content their If-Match names; forced ones may not. */
  ghost predicate ScriptWritesMatch(s: State) {
    forall i :: 0 <= i < |s.log| && s.log[i].ScriptWrite? && !s.log[i].call.force ==>
      s.log[i].call.ifMatch == Some(RevisionOf(s.log[i].before))
  }

  ghost predicate WritesTakeEffect(s: State) {
    forall i :: 0 <= i < |s.log| && s.log[i].ScriptWrite? ==>
      s.log[i].after == if s.log[i].call.content == [] then None else Some(s.log[i].call.content)
  }

  lemma RevisionsTell(a: Option<Bytes>, b: Option<Bytes>)
    ensures RevisionOf(a) == RevisionOf(b) <==> a == b
  {
  }

  lemma {:induction false} NoLostScript(steps: seq<Step>)
    ensures ScriptWritesMatch(Run(Init(), steps)) && WritesTakeEffect(Run(Init(), steps))
  {
    if steps != [] {
      NoLostScript(steps[..|steps| - 1]);
    }
  }

  /** A client that read a script, and whose unforced write naming that read was accepted, replaced that script. */
  lemma {:induction false} AcceptedWriteReplacesWhatWasRead(steps: seq<Step>, i: nat, k: nat)
    requires i < |Run(Init(), steps).log| && Run(Init(), steps).log[i].ScriptWrite?
    requires k < |Run(Init(), steps).scriptReads|
    requires var call, read := Run(Init(), steps).log[i].call, Run(Init(), steps).scriptReads[k];
             !call.force && call.slug == read.slug && call.ifMatch == Some(RevisionOf(read.content))
    ensures Run(Init(), steps).log[i].before == Run(Init(), steps).scriptReads[k].content
  {
    NoLostScript(steps);
    RevisionsTell(Run(Init(), steps).log[i].before, Run(Init(), steps).scriptReads[k].content);
  }

  /** The workspace whose row a step writes. */
  function Writes(s: State, e: Step): Option<string> {
    match e
    case DoCreate(slug, _, _) => if slug in s.rows then None else Some(slug)
    case DoUpdate(slug, ifMatch, _, _) => if slug in s.rows && s.rows[slug].stamp == ifMatch then Some(slug) else None
    case DoForceUpdate(slug, _, _) => if slug in s.rows then Some(slug) else None
    case DoApply(slug, _, script, _, _) => if script.Some? && !ValidContent(script.value) then None else Some(slug)
    case _ => None
  }

  /** The step stamps a workspace's row with a revision somebody read from that workspace before. */
  ghost predicate ReusesStamp(s: State, e: Step) {
    && Writes(s, e).Some?
    && exists k :: 0 <= k < |s.held| && s.held[k].slug == Writes(s, e).value && s.held[k].stamp == e.stamp
  }

  /** A revision that matches the current row was read off that very version. */
  ghost predicate StampsTell(s: State) {
    && (forall k :: 0 <= k < |s.held| ==> s.held[k].version < s.versions)
    && (forall slug :: slug in s.rows ==> s.rows[slug].version < s.versions)
    && (forall k :: 0 <= k < |s.held| && s.held[k].slug in s.rows && s.rows[s.held[k].slug].stamp == s.held[k].stamp ==>
          s.rows[s.held[k].slug].version == s.held[k].version)
  }

  /** Accepted unforced updates replaced the version every reader of their revision had read. */
  ghost predicate UpdatesMatch(s: State) {
    forall i :: 0 <= i < |s.log| && s.log[i].RowUpdate? ==> s.log[i].readers <= {s.log[i].replaced}
  }

  /** Revisions go on telling versions apart exactly until a row is stamped with a revision already read. */
  lemma StampsTellIff(s: State, e: Step)
    requires StampsTell(s)
    ensures StampsTell(Next(s, e)) <==> !ReusesStamp(s, e)
  {
    var s' := Next(s, e);
    if Writes(s, e).Some? {
      var slug := Writes(s, e).value;
      assert s'.held == s.held && slug in s'.rows && s'.rows[slug].stamp == e.stamp &&
          s'.rows[slug].version == s.versions;
    }
  }

  lemma StepUpdatesMatch(s: State, e: Step)
    requires StampsTell(s) && UpdatesMatch(s)
    ensures UpdatesMatch(Next(s, e))
  {
  }

  ghost predicate NeverReuses(steps: seq<Step>) {
    steps != [] ==>
      NeverReuses(steps[..|steps| - 1]) && !ReusesStamp(Run(Init(), steps[..|steps| - 1]), steps[|steps| - 1])
  }

  /** While no workspace's row gets back a revision read before, no unforced update is lost. */
  lemma {:induction false} NoLostRowUpdate(steps: seq<Step>)
    requires NeverReuses(steps)
    ensures StampsTell(Run(Init(), steps)) && UpdatesMatch(Run(Init(), steps))
  {
    hide Next, StampsTell, UpdatesMatch;
    if steps == [] {
      InitTells();
    } else {
      NoLostRowUpdate(steps[..|steps| - 1]);
      StampsTellIff(Run(Init(), steps[..|steps| - 1]), steps[|steps| - 1]);
      StepUpdatesMatch(Run(Init(), steps[..|steps| - 1]), steps[|steps| - 1]);
    }
  }

  lemma InitTells()
    ensures StampsTell(Init()) && UpdatesMatch(Init())
  {
  }

  /**
   A row write makes the next unforced update able to overwrite a version its author never
   read exactly if it reuses a revision somebody holds for that workspace.
   */
  lemma LostUpdateIff(s: State, e: Step, meta: string, stamp: nat)
    requires StampsTell(s) && UpdatesMatch(s) && Writes(s, e).Some?
    ensures (exists ifMatch: nat :: !UpdatesMatch(UpdateRow(Next(s, e), Writes(s, e).value, ifMatch, meta, stamp)))
            <==> ReusesStamp(s, e)
  {
    var s', slug := Next(s, e), Writes(s, e).value;
    StampsTellIff(s, e);
    StepUpdatesMatch(s, e);
    if ReusesStamp(s, e) {
      var k :| 0 <= k < |s.held| && s.held[k].slug == slug && s.held[k].stamp == e.stamp;
      var s2 := UpdateRow(s', slug, e.stamp, meta, stamp);
      assert s.held[k].version in Readers(s'.held, slug, e.stamp);
      assert s2.log[|s'.log|] == RowUpdate(slug, e.stamp, s.versions, Readers(s'.held, slug, e.stamp));
      assert !UpdatesMatch(s2);
    } else {
      forall ifMatch: nat ensures UpdatesMatch(UpdateRow(s', slug, ifMatch, meta, stamp)) {
        StepUpdatesMatch(s', DoUpdate(slug, ifMatch, meta, stamp));
      }
    }
  }

  /** A clock that repeats a stamp lets a stale If-Match through, over somebody's forced save. */
  lemma RepeatedStampLosesUpdate(slug: string, a: string, b: string, c: string)
    requires slug != DEFAULT_SLUG
    ensures var steps := [DoCreate(slug, a, 7), DoRead(slug), DoForceUpdate(slug, b, 7), DoUpdate(slug, 7, c, 8)];
            && slug in Run(Init(), steps).rows && Run(Init(), steps).rows[slug].meta == c
            && !UpdatesMatch(Run(Init(), steps))
  {
    var steps := [DoCreate(slug, a, 7), DoRead(slug), DoForceUpdate(slug, b, 7), DoUpdate(slug, 7, c, 8)];
    assert steps[..3][..2][..1][..0] == [];
    assert steps[..3][..2][..1] == steps[..1] && steps[..3][..2] == steps[..2];
    var s0 := Init();
    assert Run(s0, steps[..1][..0]) == s0;
    var s1 := Next(s0, steps[0]);
    assert Run(s0, steps[..1]) == s1;
    var s2 := Next(s1, steps[1]);
    assert Run(s0, steps[..2]) == s2;
    assert s2.held == [Read(slug, 7, 1)];
    var s3 := Next(s2, steps[2]);
    assert Run(s0, steps[..3]) == s3;
    var s4 := Next(s3, steps[3]);
    assert Run(s0, steps) == s4;
    assert s3.held[0].version in Readers(s3.held, slug, 7);
    assert s4.log == [RowUpdate(slug, 7, 2, Readers(s3.held, slug, 7))];
    assert s4.log[0].replaced == 2;
  }

  // ---------- dry run and round trip ----------

  /** The dry run names the real action in every state, and the action says what happened. */
  lemma DryRunPredicts(scripts: map<string, Bytes>, slug: string, content: Bytes)
    ensures var (scripts', action) := WriteScript(scripts, slug, content);
            && PredictScript(scripts, slug, content) == action
            && (action == Unchanged <==> scripts' == scripts)
            && (action == Cleared <==> slug in scripts && slug !in scripts')
            && (action == Written <==> Stored(scripts', slug) == Some(content) != Stored(scripts, slug))
            && scripts' - {slug} == scripts - {slug}
  {
  }

  /** Applying an export back leaves the scripts alone if and only if no empty script was stored. */
  lemma ExportAppliesBackIff(scripts: map<string, Bytes>, slug: string)
    ensures var (scripts', action) := WriteScript(scripts, slug, ExportScript(scripts, slug));
            action == Unchanged && scripts' == scripts <==> Stored(scripts, slug) != Some([])
  {
  }

  /** So in every reachable state an exported script passes apply's check and applies as unchanged. */
  lemma {:induction false} ExportRoundTrips(steps: seq<Step>, slug: string)
    ensures var scripts := Run(Init(), steps).scripts;
            && ValidContent(ExportScript(scripts, slug))
            && WriteScript(scripts, slug, ExportScript(scripts, slug)) == (scripts, Unchanged)
  {
    ScriptImpliesRow(steps);
    ExportAppliesBackIff(Run(Init(), steps).scripts, slug);
  }
}
