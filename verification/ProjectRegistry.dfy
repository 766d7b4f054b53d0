/**
 Registered projects, the workspace each is assigned to in the database, and the cached
 copy of that assignment (internal/api/project_service.go over
 internal/orchestrator/project_catalog.go, workspace_apply.go and project_store.go).
 Every step is one database transaction or one cache write, taken while holding the mutex
 the source takes: `mu` for assignments, `projectMu` for registration and deletion.
 */
module ProjectRegistry {
  import opened Wrappers

  /** What the holder of `mu` still has to do. */
  datatype Mu =
    | Free
    | Listed(slug: string, ids: set<string>)
    | Writing(pending: map<string, string>)

  /** How far the holder of `projectMu` has come. */
  datatype ProjectMu =
    | Idle
    | Deleting(gone: string)
    | Creating(id: string, slug: string)
    | Unassigned(id: string)
    | Finishing

  /**
   rows: each registered project's workspace, "" for none; cache: the same as the meta
   cache has it; dangling: projects whose failed registration could not be rolled back.
   */
  datatype State = State(
    rows: map<string, string>, workspaces: set<string>, cache: map<string, string>,
    mu: Mu, projectMu: ProjectMu, dangling: set<string>)

  function Lookup(m: map<string, string>, id: string): string {
    if id in m then m[id] else ""
  }

  function Cached(s: State, id: string): string {
    Lookup(s.cache, id)
  }

  function SetCached(cache: map<string, string>, id: string, ws: string): map<string, string> {
    if ws == "" then cache - {id} else cache[id := ws]
  }

  predicate Assignable(s: State, ws: string) {
    ws == "" || ws == DEFAULT_SLUG || ws in s.workspaces
  }

  // ---------- under mu ----------

  /** AssignWorkspaceIfExists; clearing a row that is gone deletes nothing and succeeds. */
  function AssignDb(s: State, id: string, ws: string, ok: bool): State {
    if !s.mu.Free? || !ok || !Assignable(s, ws) then s
    else if id in s.rows then s.(rows := s.rows[id := ws], mu := Writing(map[id := ws]))
    else if ws == "" then s.(mu := Writing(map[id := ws]))
    else s
  }

  function SetOf(ids: seq<string>): set<string> {
    set id | id in ids
  }

  function AssignedTo(rows: map<string, string>, slug: string): set<string> {
    set id | id in rows && rows[id] == slug
  }

  /** RemoveWorkspace's listing, taken before the row is deleted. */
  function RemoveList(s: State, slug: string): State {
    if !s.mu.Free? || slug == DEFAULT_SLUG || slug == "" then s else s.(mu := Listed(slug, AssignedTo(s.rows, slug)))
  }

  function MoveAll(rows: map<string, string>, from: set<string>, to: string): map<string, string> {
    map id | id in rows :: if id in from then to else rows[id]
  }

  function RemoveDb(s: State, ok: bool): State {
    if !s.mu.Listed? then s
    else if !ok || s.mu.slug !in s.workspaces then s.(mu := Free)
    else
      s.(rows := MoveAll(s.rows, AssignedTo(s.rows, s.mu.slug), DEFAULT_SLUG), workspaces := s.workspaces - {s.mu.slug},
         mu := Writing(map id | id in s.mu.ids :: DEFAULT_SLUG))
  }

  /** applyWorkspaceProjectAssignments: what a document attaches and what it detaches. */
  function Attached(s: State, slug: string, targets: set<string>): set<string> {
    targets - AssignedTo(s.rows, slug)
  }

  function Detached(s: State, slug: string, targets: set<string>): set<string> {
    AssignedTo(s.rows, slug) - targets
  }

  function Reconcile(s: State, slug: string, targets: set<string>): State {
    var attached, detached := Attached(s, slug, targets), Detached(s, slug, targets);
    s.(rows := MoveAll(MoveAll(s.rows, attached, slug), detached, DEFAULT_SLUG),
       mu := Writing(Moves(attached, slug, detached)))
  }

  /** The cache writes an apply owes. */
  function Moves(attached: set<string>, slug: string, detached: set<string>): map<string, string> {
    map id | id in attached + detached :: if id in attached then slug else DEFAULT_SLUG
  }

  /**
   ApplyWorkspace's transaction; a target that is not registered any more fails it whole.
   A document that lists no projects leaves the assignments alone.
   */
  function ApplyDb(s: State, slug: string, targets: Option<set<string>>, dryRun: bool, ok: bool): State {
    if !s.mu.Free? || dryRun || !ok || slug == "" then s
    else if targets.None? then s.(workspaces := s.workspaces + {slug}, mu := Writing(map[]))
    else if targets.value <= s.rows.Keys then Reconcile(s, slug, targets.value).(workspaces := s.workspaces + {slug})
    else s
  }

  function CacheWrite(s: State, id: string): State {
    if s.mu.Writing? && id in s.mu.pending then
      s.(cache := SetCached(s.cache, id, s.mu.pending[id]), mu := Writing(s.mu.pending - {id}))
    else s
  }

  function Release(s: State): State {
    if s.mu.Writing? && s.mu.pending == map[] then s.(mu := Free) else s
  }

  // ---------- under projectMu ----------

  function DeleteDb(s: State, id: string, ok: bool): State {
    if s.projectMu.Idle? && id in s.rows && ok
    then s.(rows := s.rows - {id}, projectMu := Deleting(id), dangling := s.dangling - {id}) else s
  }

  function DropCached(s: State): State {
    if s.projectMu.Deleting? then s.(cache := s.cache - {s.projectMu.gone}, projectMu := Idle) else s
  }

  /** CreateProject's insert; a failing one forgets whatever the cache held for the id. */
  function CreateRow(s: State, id: string, slug: string, ok: bool): State {
    if !s.projectMu.Idle? || id in s.rows || slug == "" then s
    else if !ok then s.(cache := s.cache - {id})
    else s.(rows := s.rows[id := ""], projectMu := Creating(id, slug))
  }

  /** The registration's assignment takes mu as well. */
  function CreateAssign(s: State, ok: bool): State {
    if !s.projectMu.Creating? || !s.mu.Free? then s
    else if ok && Assignable(s, s.projectMu.slug) && s.projectMu.id in s.rows then
      s.(rows := s.rows[s.projectMu.id := s.projectMu.slug], mu := Writing(map[s.projectMu.id := s.projectMu.slug]),
         projectMu := Finishing)
    else s.(projectMu := Unassigned(s.projectMu.id))
  }

  function FinishCreate(s: State): State {
    if s.projectMu.Finishing? && s.mu.Free? then s.(projectMu := Idle) else s
  }

  /** A failed assignment deletes the new row again, if it can. */
  function Rollback(s: State, ok: bool): State {
    if !s.projectMu.Unassigned? then s
    else if ok then s.(rows := s.rows - {s.projectMu.id}, projectMu := Deleting(s.projectMu.id))
    else s.(projectMu := Idle, dangling := s.dangling + {s.projectMu.id})
  }

  datatype Step =
    | DoAssign(id: string, ws: string, ok: bool)
    | DoRemoveList(slug: string)
    | DoRemove(ok: bool)
    | DoApply(slug: string, targets: Option<set<string>>, dryRun: bool, ok: bool)
    | DoCacheWrite(id: string)
    | DoRelease
    | DoDelete(id: string, ok: bool)
    | DoDropCached
    | DoCreateRow(id: string, slug: string, ok: bool)
    | DoCreateAssign(ok: bool)
    | DoFinishCreate
    | DoRollback(ok: bool)

  function Next(s: State, e: Step): State {
    match e
    case DoAssign(id, ws, ok) => AssignDb(s, id, ws, ok)
    case DoRemoveList(slug) => RemoveList(s, slug)
    case DoRemove(ok) => RemoveDb(s, ok)
    case DoApply(slug, targets, dryRun, ok) => ApplyDb(s, slug, targets, dryRun, ok)
    case DoCacheWrite(id) => CacheWrite(s, id)
    case DoRelease => Release(s)
    case DoDelete(id, ok) => DeleteDb(s, id, ok)
    case DoDropCached => DropCached(s)
    case DoCreateRow(id, slug, ok) => CreateRow(s, id, slug, ok)
    case DoCreateAssign(ok) => CreateAssign(s, ok)
    case DoFinishCreate => FinishCreate(s)
    case DoRollback(ok) => Rollback(s, ok)
  }

  function Run(s: State, steps: seq<Step>): State {
    if steps == [] then s else Next(Run(s, steps[..|steps| - 1]), steps[|steps| - 1])
  }

  function Init(workspaces: set<string>): State {
    State(map[], workspaces, map[], Free, Idle, {})
  }

  // ---------- what every interleaving keeps ----------

  /** The cached workspace once the pending writes have landed. */
  ghost function Settled(s: State, id: string): string {
    if s.mu.Writing? && id in s.mu.pending then s.mu.pending[id] else Cached(s, id)
  }

  ghost predicate InCreation(s: State, id: string) {
    (s.projectMu.Creating? || s.projectMu.Unassigned?) && s.projectMu.id == id
  }

  ghost predicate Exempt(s: State, id: string) {
    InCreation(s, id) || id in s.dangling
  }

  ghost predicate SettlesRight(s: State) {
    forall id :: id in s.rows && !Exempt(s, id) ==> Settled(s, id) == s.rows[id]
  }

  /** A removal's listing still covers every row of the workspace, and only such rows. */
  ghost predicate ListingGood(s: State) {
    s.mu.Listed? ==>
      && s.mu.slug != ""
      && (forall id :: id in s.rows && s.rows[id] == s.mu.slug ==> id in s.mu.ids)
      && (forall id :: id in s.rows && id in s.mu.ids && !Exempt(s, id) ==> s.rows[id] == s.mu.slug)
  }

  ghost predicate DeletedIsGone(s: State) {
    s.projectMu.Deleting? ==> s.projectMu.gone !in s.rows
  }

  ghost predicate Good(s: State) {
    SettlesRight(s) && ListingGood(s) && DeletedIsGone(s)
  }

  lemma MuStepGood(s: State, e: Step)
    requires Good(s) && (e.DoAssign? || e.DoRemoveList? || e.DoRemove? || e.DoApply?)
    ensures Good(Next(s, e))
  {
  }

  lemma CacheStepGood(s: State, e: Step)
    requires Good(s) && (e.DoCacheWrite? || e.DoRelease? || e.DoDropCached? || e.DoFinishCreate?)
    ensures Good(Next(s, e))
  {
  }

  lemma ProjectStepGood(s: State, e: Step)
    requires Good(s) && (e.DoDelete? || e.DoCreateRow? || e.DoCreateAssign? || e.DoRollback?)
    ensures Good(Next(s, e))
  {
  }

  lemma StepGood(s: State, e: Step)
    requires Good(s)
    ensures Good(Next(s, e))
  {
    match e
    case DoAssign(_, _, _) => MuStepGood(s, e);
    case DoRemoveList(_) => MuStepGood(s, e);
    case DoRemove(_) => MuStepGood(s, e);
    case DoApply(_, _, _, _) => MuStepGood(s, e);
    case DoCacheWrite(_) => CacheStepGood(s, e);
    case DoRelease => CacheStepGood(s, e);
    case DoDropCached => CacheStepGood(s, e);
    case DoFinishCreate => CacheStepGood(s, e);
    case _ => ProjectStepGood(s, e);
  }

  lemma {:induction false} RunGood(workspaces: set<string>, steps: seq<Step>)
    ensures Good(Run(Init(workspaces), steps))
  {
    if steps != [] {
      RunGood(workspaces, steps[..|steps| - 1]);
      StepGood(Run(Init(workspaces), steps[..|steps| - 1]), steps[|steps| - 1]);
    }
  }

  ghost predicate Quiescent(s: State) {
    s.mu.Free? && s.projectMu.Idle?
  }

  /**
   Under every interleaving of the calls' phases, failures included: whenever no call is
   under way, each registered project's cached workspace is its stored one, unless its own
   registration failed and could not be rolled back.
   */
  lemma CacheAgreesWithDatabase(workspaces: set<string>, steps: seq<Step>, id: string)
    requires Quiescent(Run(Init(workspaces), steps)) && id in Run(Init(workspaces), steps).rows
    requires id !in Run(Init(workspaces), steps).dangling
    ensures Cached(Run(Init(workspaces), steps), id) == Run(Init(workspaces), steps).rows[id]
  {
    RunGood(workspaces, steps);
  }

  // ---------- the exempted case ----------

  /** A project row is deleted while some call under mu is between its transaction and its cache writes. */
  ghost predicate DeletesUnderneath(s: State, e: Step) {
    !s.mu.Free? && (e.DoDelete? || e.DoRollback?)
  }

  ghost predicate DeletesApart(s: State, steps: seq<Step>) {
    steps != [] ==>
      && DeletesApart(s, steps[..|steps| - 1])
      && !DeletesUnderneath(Run(s, steps[..|steps| - 1]), steps[|steps| - 1])
  }

  /** Then nothing is remembered of an unregistered project. */
  ghost predicate Forgotten(s: State) {
    && (forall id :: id !in s.rows && !(s.projectMu.Deleting? && s.projectMu.gone == id) ==> Settled(s, id) == "")
    && (s.mu.Listed? ==> s.mu.ids <= s.rows.Keys && forall id :: id in s.mu.ids ==> s.rows[id] == s.mu.slug)
    && (forall id :: id in s.rows ==> Settled(s, id) == s.rows[id])
    && (s.projectMu.Deleting? && s.mu.Writing? && s.projectMu.gone in s.mu.pending ==>
        s.mu.pending[s.projectMu.gone] == "")
  }

  lemma AssignForgets(s: State, e: Step)
    requires DeletedIsGone(s) && Forgotten(s) && (e.DoAssign? || e.DoRemoveList?)
    ensures Forgotten(Next(s, e))
  {
  }

  lemma RemoveForgets(s: State, e: Step)
    requires DeletedIsGone(s) && ListingGood(s) && Forgotten(s) && e.DoRemove?
    ensures Forgotten(Next(s, e))
  {
  }

  lemma ApplyForgets(s: State, e: Step)
    requires DeletedIsGone(s) && Forgotten(s) && e.DoApply?
    ensures Forgotten(Next(s, e))
  {
  }

  lemma CacheStepForgets(s: State, e: Step)
    requires DeletedIsGone(s) && Forgotten(s)
    requires e.DoCacheWrite? || e.DoRelease? || e.DoDropCached? || e.DoFinishCreate?
    ensures Forgotten(Next(s, e))
  {
  }

  lemma DeleteStepForgets(s: State, e: Step)
    requires Forgotten(s) && !DeletesUnderneath(s, e) && (e.DoDelete? || e.DoRollback?)
    ensures Forgotten(Next(s, e))
  {
  }

  lemma CreateStepForgets(s: State, e: Step)
    requires Forgotten(s) && (e.DoCreateRow? || e.DoCreateAssign?)
    ensures Forgotten(Next(s, e))
  {
  }

  lemma StepForgets(s: State, e: Step)
    requires Good(s) && Forgotten(s) && !DeletesUnderneath(s, e)
    ensures Forgotten(Next(s, e))
  {
    hide Forgotten, DeletedIsGone, ListingGood, SettlesRight;
    match e
    case DoAssign(_, _, _) => AssignForgets(s, e);
    case DoRemoveList(_) => AssignForgets(s, e);
    case DoRemove(_) => RemoveForgets(s, e);
    case DoApply(_, _, _, _) => ApplyForgets(s, e);
    case DoDelete(_, _) => DeleteStepForgets(s, e);
    case DoRollback(_) => DeleteStepForgets(s, e);
    case DoCreateRow(_, _, _) => CreateStepForgets(s, e);
    case DoCreateAssign(_) => CreateStepForgets(s, e);
    case _ => CacheStepForgets(s, e);
  }

  /** While no row is deleted under a running assignment, every registered project agrees. */
  lemma {:induction false} AllAgreeWhenDeletesStayApart(workspaces: set<string>, steps: seq<Step>)
    requires DeletesApart(Init(workspaces), steps)
    ensures Forgotten(Run(Init(workspaces), steps))
    ensures var s := Run(Init(workspaces), steps);
            Quiescent(s) ==> forall id :: id in s.rows ==> Cached(s, id) == s.rows[id]
  {
    if steps != [] {
      var before, e := steps[..|steps| - 1], steps[|steps| - 1];
      var s := Run(Init(workspaces), before);
      AllAgreeWhenDeletesStayApart(workspaces, before);
      RunGood(workspaces, before);
      StepForgets(s, e);
    }
  }

  /** Apart from pending writes and a deletion under way, cache and rows say the same of every id. */
  ghost predicate AllAgree(s: State) {
    forall id :: !(s.mu.Writing? && id in s.mu.pending) && !(s.projectMu.Deleting? && s.projectMu.gone == id) ==>
      Lookup(s.cache, id) == Lookup(s.rows, id)
  }

  /** A cache write lands that the project's row does not bear out, nor a deletion about to clean up. */
  ghost predicate StaleWrite(s: State, e: Step) {
    && e.DoCacheWrite? && s.mu.Writing? && e.id in s.mu.pending
    && s.mu.pending[e.id] != Lookup(s.rows, e.id) && !(s.projectMu.Deleting? && s.projectMu.gone == e.id)
  }

  lemma MuStepAgrees(s: State, e: Step)
    requires ListingGood(s) && AllAgree(s) && (e.DoAssign? || e.DoRemoveList? || e.DoRemove? || e.DoApply?)
    ensures AllAgree(Next(s, e))
  {
    forall id ensures Lookup(s.cache, id) == Lookup(Next(s, e).cache, id) {
    }
  }

  lemma CacheStepAgreesIff(s: State, e: Step)
    requires DeletedIsGone(s) && AllAgree(s)
    requires e.DoCacheWrite? || e.DoRelease? || e.DoDropCached? || e.DoFinishCreate?
    ensures AllAgree(Next(s, e)) <==> !StaleWrite(s, e)
  {
    var s' := Next(s, e);
    if StaleWrite(s, e) {
      assert Lookup(s'.cache, e.id) == s.mu.pending[e.id] != Lookup(s'.rows, e.id);
    }
  }

  lemma ProjectStepAgrees(s: State, e: Step)
    requires AllAgree(s) && (e.DoDelete? || e.DoCreateRow? || e.DoCreateAssign? || e.DoRollback?)
    ensures AllAgree(Next(s, e))
  {
  }

  /** Of all the steps exactly a stale cache write makes cache and rows disagree. */
  lemma StepAgreesIff(s: State, e: Step)
    requires Good(s) && AllAgree(s)
    ensures AllAgree(Next(s, e)) <==> !StaleWrite(s, e)
  {
    hide AllAgree, SettlesRight, ListingGood, DeletedIsGone;
    match e
    case DoAssign(_, _, _) => MuStepAgrees(s, e);
    case DoRemoveList(_) => MuStepAgrees(s, e);
    case DoRemove(_) => MuStepAgrees(s, e);
    case DoApply(_, _, _, _) => MuStepAgrees(s, e);
    case DoDelete(_, _) => ProjectStepAgrees(s, e);
    case DoRollback(_) => ProjectStepAgrees(s, e);
    case DoCreateRow(_, _, _) => ProjectStepAgrees(s, e);
    case DoCreateAssign(_) => ProjectStepAgrees(s, e);
    case _ => CacheStepAgreesIff(s, e);
  }

  ghost predicate NoStaleWrite(s: State, steps: seq<Step>) {
    steps != [] ==>
      && NoStaleWrite(s, steps[..|steps| - 1])
      && !StaleWrite(Run(s, steps[..|steps| - 1]), steps[|steps| - 1])
  }

  /** Without stale writes every project agrees whenever no call is under way, dangling or not. */
  lemma {:induction false} AllAgreeWithoutStaleWrites(workspaces: set<string>, steps: seq<Step>)
    requires NoStaleWrite(Init(workspaces), steps)
    ensures var s := Run(Init(workspaces), steps);
            AllAgree(s) && (Quiescent(s) ==> forall id :: Lookup(s.cache, id) == Lookup(s.rows, id))
  {
    if steps != [] {
      AllAgreeWithoutStaleWrites(workspaces, steps[..|steps| - 1]);
      RunGood(workspaces, steps[..|steps| - 1]);
      StepAgreesIff(Run(Init(workspaces), steps[..|steps| - 1]), steps[|steps| - 1]);
    }
  }

  /** A cache write leaves an entry for an unregistered project exactly if it names a workspace for one. */
  lemma LateWriteIff(s: State, id: string)
    requires s.mu.Writing? && id in s.mu.pending
    ensures var s' := CacheWrite(s, id);
            id in s'.cache && id !in s'.rows <==> id !in s.rows && s.mu.pending[id] != ""
  {
  }

  /** A registration that can neither be assigned nor rolled back agrees exactly if nothing was cached for the id. */
  lemma FailedRegistrationAgreesIff(s: State, id: string, slug: string)
    requires Quiescent(s) && id !in s.rows && slug != ""
    ensures var s' := Rollback(CreateAssign(CreateRow(s, id, slug, true), false), false);
            && Quiescent(s') && id in s'.rows && id in s'.dangling
            && (Cached(s', id) == s'.rows[id] <==> Cached(s, id) == "")
  {
  }

  lemma RunSnoc(s: State, steps: seq<Step>, e: Step)
    ensures Run(s, steps + [e]) == Next(Run(s, steps), e)
  {
    assert (steps + [e])[..|steps|] == steps;
  }

  lemma RunOne(s: State, e: Step)
    ensures Run(s, [e]) == Next(s, e)
  {
    assert [e][..0] == [];
    assert Run(s, []) == s;
  }

  lemma WriteOne(start: State, steps: seq<Step>, id: string)
    requires Run(start, steps).mu.Writing? && id in Run(start, steps).mu.pending
    ensures var s := Run(start, steps);
            Run(start, steps + [DoCacheWrite(id)]) ==
            s.(cache := SetCached(s.cache, id, s.mu.pending[id]), mu := Writing(s.mu.pending - {id}))
  {
    hide Run;
    RunSnoc(start, steps, DoCacheWrite(id));
  }

  lemma PendingShrinks(pending: map<string, string>, ids: seq<string>, i: nat)
    requires i < |ids|
    ensures pending - SetOf(ids[..i + 1])
         == if ids[i] in ids[..i] then pending - SetOf(ids[..i]) else pending - SetOf(ids[..i]) - {ids[i]}
  {
    assert ids[..i + 1] == ids[..i] + [ids[i]];
    assert SetOf(ids[..i + 1]) == SetOf(ids[..i]) + {ids[i]};
  }

  /** One pending cache write lands and mu is free again. */
  lemma WriteAndRelease(start: State, steps: seq<Step>, id: string, ws: string)
    requires Run(start, steps).mu == Writing(map[id := ws])
    ensures var s := Run(start, steps);
            Run(start, steps + [DoCacheWrite(id)] + [DoRelease]) == s.(cache := SetCached(s.cache, id, ws), mu := Free)
  {
    hide Run;
    RunSnoc(start, steps, DoCacheWrite(id));
    assert map[id := ws] - {id} == map[];
    RunSnoc(start, steps + [DoCacheWrite(id)], DoRelease);
  }

  /** A registration whose assignment and whose rollback both fail leaves p's row, unassigned. */
  lemma DanglingReachable(workspaces: set<string>, p: string) returns (steps: seq<Step>)
    ensures Run(Init(workspaces), steps) == State(map[p := ""], workspaces, map[], Free, Idle, {p})
  {
    var s0 := Init(workspaces);
    steps := [];
    RunSnoc(s0, steps, DoCreateRow(p, DEFAULT_SLUG, true));
    steps := steps + [DoCreateRow(p, DEFAULT_SLUG, true)];
    assert Run(s0, steps) == State(map[p := ""], workspaces, map[], Free, Creating(p, DEFAULT_SLUG), {});
    RunSnoc(s0, steps, DoCreateAssign(false));
    steps := steps + [DoCreateAssign(false)];
    assert Run(s0, steps) == State(map[p := ""], workspaces, map[], Free, Unassigned(p), {});
    RunSnoc(s0, steps, DoRollback(false));
    steps := steps + [DoRollback(false)];
  }

  /** p is deleted between an assignment's transaction and its cache write, which then lands for nobody. */
  lemma LateWriteReachable(workspaces: set<string>, p: string) returns (steps: seq<Step>)
    ensures Run(Init(workspaces), steps) == State(map[], workspaces, map[p := DEFAULT_SLUG], Free, Idle, {})
  {
    var s0 := Init(workspaces);
    steps := DanglingReachable(workspaces, p);
    RunSnoc(s0, steps, DoAssign(p, DEFAULT_SLUG, true));
    steps := steps + [DoAssign(p, DEFAULT_SLUG, true)];
    RunSnoc(s0, steps, DoDelete(p, true));
    steps := steps + [DoDelete(p, true)];
    assert Run(s0, steps) == State(map[], workspaces, map[], Writing(map[p := DEFAULT_SLUG]), Deleting(p), {});
    RunSnoc(s0, steps, DoDropCached);
    steps := steps + [DoDropCached];
    assert Run(s0, steps) == State(map[], workspaces, map[], Writing(map[p := DEFAULT_SLUG]), Idle, {});
    RunSnoc(s0, steps, DoCacheWrite(p));
    steps := steps + [DoCacheWrite(p)];
    assert Run(s0, steps) == State(map[], workspaces, map[p := DEFAULT_SLUG], Writing(map[]), Idle, {});
    RunSnoc(s0, steps, DoRelease);
    steps := steps + [DoRelease];
  }

  /** The exemption is needed: registering p again and failing to roll back leaves cache and row apart. */
  lemma DanglingMayDisagree(workspaces: set<string>, p: string)
    ensures exists steps :: var s := Run(Init(workspaces), steps);
              Quiescent(s) && p in s.rows && Cached(s, p) != s.rows[p] && p in s.dangling
  {
    var s0 := Init(workspaces);
    var steps := LateWriteReachable(workspaces, p);
    RunSnoc(s0, steps, DoCreateRow(p, DEFAULT_SLUG, true));
    steps := steps + [DoCreateRow(p, DEFAULT_SLUG, true)];
    RunSnoc(s0, steps, DoCreateAssign(false));
    steps := steps + [DoCreateAssign(false)];
    RunSnoc(s0, steps, DoRollback(false));
    steps := steps + [DoRollback(false)];
    assert Run(s0, steps) == State(map[p := ""], workspaces, map[p := DEFAULT_SLUG], Free, Idle, {p});
  }
}
