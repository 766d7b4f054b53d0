/** What each phase of a registry call does, told on rows, workspaces and cache. */
module ProjectRegistryEffects {
  import opened Wrappers
  import opened ProjectRegistry

  /** An assignment of a registered project to no workspace, the default one or an existing one. */
  lemma AssignEffect(s: State, id: string, ws: string)
    requires s.mu.Free? && id in s.rows && (ws == "" || ws == "default" || ws in s.workspaces)
    ensures AssignDb(s, id, ws, true) ==
            State(s.rows[id := ws], s.workspaces, s.cache, Writing(map[id := ws]), s.projectMu, s.dangling)
  {
  }

  /** Every other one changes nothing, save that clearing a project that is gone succeeds. */
  lemma AssignRefused(s: State, id: string, ws: string, ok: bool)
    ensures (|| !s.mu.Free? || !ok || (ws != "" && ws != "default" && ws !in s.workspaces)
             || (id !in s.rows && ws != "")) ==> AssignDb(s, id, ws, ok) == s
    ensures s.mu.Free? && id !in s.rows ==> AssignDb(s, id, "", true) == s.(mu := Writing(map[id := ""]))
  {
  }

  /** A removal moves the workspace's projects to the default one and owes the listed ones a cache write. */
  lemma RemoveEffect(s: State, slug: string)
    requires s.mu.Free? && slug != "default" && slug != "" && slug in s.workspaces
    ensures var listed := RemoveList(s, slug);
            var s' := RemoveDb(listed, true);
            && listed == s.(mu := listed.mu) && listed.mu.Listed? && listed.mu.slug == slug
            && (forall id :: id in listed.mu.ids <==> id in s.rows && s.rows[id] == slug)
            && s'.workspaces == s.workspaces - {slug} && s'.cache == s.cache && s'.rows.Keys == s.rows.Keys
            && (forall id :: id in s.rows ==> s'.rows[id] == if s.rows[id] == slug then "default" else s.rows[id])
            && s'.mu.Writing? && s'.mu.pending.Keys == listed.mu.ids
            && (forall id :: id in s'.mu.pending ==> s'.mu.pending[id] == "default")
  {
  }

  /** One that fails, or names no workspace, changes nothing; the default workspace is never listed. */
  lemma RemoveRefused(s: State, slug: string, ok: bool)
    requires s.mu.Free? && (!ok || slug !in s.workspaces)
    ensures RemoveDb(RemoveList(s, slug), ok) == s && RemoveList(s, "default") == s
  {
  }

  /** An apply assigns its targets, moves the workspace's others to the default one, and owes their cache writes. */
  lemma ApplyEffect(s: State, slug: string, targets: set<string>)
    requires s.mu.Free? && slug != "" && targets <= s.rows.Keys
    ensures var s' := ApplyDb(s, slug, Some(targets), false, true);
            && s'.workspaces == s.workspaces + {slug} && s'.cache == s.cache && s'.rows.Keys == s.rows.Keys
            && s'.projectMu == s.projectMu && s'.dangling == s.dangling && s'.mu.Writing?
            && (forall id :: id in s.rows ==>
                  s'.rows[id] == if id in targets then slug else if s.rows[id] == slug then "default" else s.rows[id])
            && (forall id :: id in s'.mu.pending <==>
                  id in s.rows && ((id in targets && s.rows[id] != slug) || (id !in targets && s.rows[id] == slug)))
            && (forall id :: id in s'.mu.pending ==> s'.mu.pending[id] == if id in targets then slug else "default")
  {
  }

  /** Without a project list it makes the workspace only; a dry run, a failure or a stale target changes nothing. */
  lemma ApplyOtherwise(s: State, slug: string, targets: Option<set<string>>, dryRun: bool, ok: bool)
    requires s.mu.Free?
    ensures slug != "" ==>
              ApplyDb(s, slug, None, false, true) == s.(workspaces := s.workspaces + {slug}, mu := Writing(map[]))
    ensures dryRun || !ok || slug == "" || (targets.Some? && !(targets.value <= s.rows.Keys)) ==>
              ApplyDb(s, slug, targets, dryRun, ok) == s
  {
  }

  /** A cache write lands the owed workspace, and the mutex is given up when none is owed. */
  lemma CacheEffect(s: State, id: string)
    requires s.mu.Writing?
    ensures id in s.mu.pending ==>
              && CacheWrite(s, id).rows == s.rows && CacheWrite(s, id).mu == Writing(s.mu.pending - {id})
              && CacheWrite(s, id).cache == if s.mu.pending[id] == "" then s.cache - {id}
                                            else s.cache[id := s.mu.pending[id]]
    ensures Release(s) == if s.mu.pending == map[] then s.(mu := Free) else s
    ensures Cached(s, id) == if id in s.cache then s.cache[id] else ""
  {
  }

  /** A deletion takes the row, then the cache entry. */
  lemma DeleteEffect(s: State, id: string)
    requires s.projectMu.Idle?
    ensures DeleteDb(s, id, false) == s
    ensures id !in s.rows ==> DeleteDb(s, id, true) == s
    ensures id in s.rows ==> DropCached(DeleteDb(s, id, true)) ==
                             State(s.rows - {id}, s.workspaces, s.cache - {id}, s.mu, Idle, s.dangling - {id})
  {
  }

  /** A registration adds an unassigned row, then assigns it, or takes it back with whatever was cached for it. */
  lemma RegisterEffect(s: State, id: string, slug: string)
    requires s.projectMu.Idle? && s.mu.Free? && id !in s.rows && slug != ""
    ensures CreateRow(s, id, slug, false) == s.(cache := s.cache - {id})
    ensures var row := CreateRow(s, id, slug, true);
            && row == s.(rows := s.rows[id := ""], projectMu := Creating(id, slug))
            && (slug == "default" || slug in s.workspaces ==>
                  CreateAssign(row, true) ==
                  s.(rows := s.rows[id := slug], mu := Writing(map[id := slug]), projectMu := Finishing))
            && CreateAssign(row, false) == row.(projectMu := Unassigned(id))
            && DropCached(Rollback(CreateAssign(row, false), true)) == s.(cache := s.cache - {id})
            && Rollback(CreateAssign(row, false), false) ==
               s.(rows := s.rows[id := ""], dangling := s.dangling + {id})
  {
    assert s.rows[id := ""][id := slug] == s.rows[id := slug];
    assert s.rows[id := ""] - {id} == s.rows;
  }

  /** A known id or no workspace changes nothing, a row deleted meanwhile is not assigned, the end frees the mutex. */
  lemma RegisterOtherwise(s: State, id: string, slug: string, ok: bool)
    ensures id in s.rows || slug == "" ==> CreateRow(s, id, slug, ok) == s
    ensures s.projectMu == Creating(id, slug) && s.mu.Free? && id !in s.rows ==>
              CreateAssign(s, ok) == s.(projectMu := Unassigned(id))
    ensures s.projectMu.Finishing? ==> FinishCreate(s) == if s.mu.Free? then s.(projectMu := Idle) else s
  {
  }
}
