/**
 The registry calls of internal/api/project_service.go as they run one at a time.  Each is
 proved to be a run of the registry's steps, so everything true of all runs is true of them.
 */
module ProjectService {
  import opened Wrappers
  import opened ProjectRegistry

  /** Every project's cached workspace is its stored one, and nothing is cached for an unregistered id. */
  ghost predicate Agreed(rows: map<string, string>, cache: map<string, string>) {
    forall id :: Lookup(cache, id) == Lookup(rows, id)
  }

  /** Agreement survives when each project's two copies stay as they were or change to the same. */
  lemma StillAgreed(rows: map<string, string>, cache: map<string, string>,
                    rows': map<string, string>, cache': map<string, string>)
    requires Agreed(rows, cache)
    requires forall id :: (Lookup(rows', id) == Lookup(rows, id) && Lookup(cache', id) == Lookup(cache, id))
                          || Lookup(rows', id) == Lookup(cache', id)
    ensures Agreed(rows', cache')
  {
    forall id ensures Lookup(cache', id) == Lookup(rows', id) {
      assert Lookup(cache, id) == Lookup(rows, id);
    }
  }

  lemma AssignAgreed(rows: map<string, string>, cache: map<string, string>, id: string, ws: string)
    ensures Agreed(rows, cache) ==> Agreed(rows[id := ws], SetCached(cache, id, ws))
  {
    if Agreed(rows, cache) {
      StillAgreed(rows, cache, rows[id := ws], SetCached(cache, id, ws));
    }
  }

  lemma ForgetAgreed(rows: map<string, string>, cache: map<string, string>, id: string)
    ensures Agreed(rows, cache) ==> Agreed(rows - {id}, cache - {id})
    ensures Agreed(rows, cache) && id !in rows ==> Agreed(rows, cache - {id}) && Agreed(rows[id := ""], cache)
  {
    if Agreed(rows, cache) {
      StillAgreed(rows, cache, rows - {id}, cache - {id});
      if id !in rows {
        StillAgreed(rows, cache, rows, cache - {id});
        StillAgreed(rows, cache, rows[id := ""], cache);
      }
    }
  }

  lemma AppliedAgreed(rows: map<string, string>, cache: map<string, string>,
                      mid: map<string, string>, last: map<string, string>,
                      slug: string, attached: seq<string>, detached: seq<string>)
    requires Agreed(rows, cache) && (forall id :: id in attached || id in detached ==> id in rows)
    requires forall id :: id in attached ==> Lookup(mid, id) == slug && id !in detached
    requires forall id :: id !in attached ==> Lookup(mid, id) == Lookup(cache, id)
    requires forall id :: id in detached ==> Lookup(last, id) == DEFAULT_SLUG
    requires forall id :: id !in detached ==> Lookup(last, id) == Lookup(mid, id)
    ensures Agreed(MoveAll(MoveAll(rows, SetOf(attached), slug), SetOf(detached), DEFAULT_SLUG), last)
  {
    StillAgreed(rows, cache, MoveAll(MoveAll(rows, SetOf(attached), slug), SetOf(detached), DEFAULT_SLUG), last);
  }

  class Service {
    var rows: map<string, string>
    var workspaces: set<string>
    var cache: map<string, string>
    ghost var dangling: set<string>

    constructor (workspaces: set<string>)
      ensures Snapshot() == Init(workspaces)
    {
      rows, this.workspaces, cache, dangling := map[], workspaces, map[], {};
    }

    ghost function Snapshot(): State
      reads this
    {
      State(rows, workspaces, cache, Free, Idle, dangling)
    }

    /** CreateProjectFromGitURL from its resolved id on. */
    method CreateProject(id: string, slug: string, createOk: bool, assignOk: bool, rollbackOk: bool)
      returns (code: nat, ghost steps: seq<Step>)
      requires slug != ""
      modifies this
      ensures Snapshot() == Run(old(Snapshot()), steps)
      ensures old(Agreed(rows, cache)) ==> Agreed(rows, cache)
      ensures code == 200 <==> slug in workspaces && id !in old(rows) && createOk && assignOk
      ensures code == 200 ==> rows == old(rows)[id := slug] && cache == old(cache)[id := slug]
      ensures code == 409 ==> Snapshot() == old(Snapshot())
      ensures code != 200 && id !in old(rows) ==>
                rows - {id} == old(rows) && (id in rows ==> createOk && !assignOk && !rollbackOk && id in dangling)
    {
      hide Run;
      steps := [];
      RunNil(Snapshot());
      if slug !in workspaces {
        code := 404;
        return;
      }
      if id in rows {
        code := 409;
        return;
      }
      hide Agreed, Lookup;
      ForgetAgreed(rows, cache, id);
      AssignAgreed(rows, cache, id, slug);
      steps := [DoCreateRow(id, slug, createOk)];
      RunOne(old(Snapshot()), DoCreateRow(id, slug, createOk));
      if !createOk {
        cache := cache - {id};
        code := 500;
        return;
      }
      rows := rows[id := ""];
      steps := AssignNew(id, slug, assignOk, rollbackOk, old(Snapshot()), steps);
      code := if assignOk then 200 else 500;
    }

    /** The registration's assignment, and its rollback when that fails. */
    method AssignNew(id: string, slug: string, assignOk: bool, rollbackOk: bool, ghost start: State,
                     ghost before: seq<Step>)
      returns (ghost steps: seq<Step>)
      requires id in rows && slug != "" && slug in workspaces
      requires Run(start, before) == State(rows, workspaces, cache, Free, Creating(id, slug), dangling)
      modifies this
      ensures Run(start, steps) == Snapshot() && workspaces == old(workspaces)
      ensures assignOk ==> rows == old(rows)[id := slug] && cache == old(cache)[id := slug]
      ensures !assignOk && rollbackOk ==> rows == old(rows) - {id} && cache == old(cache) - {id}
      ensures !assignOk && !rollbackOk ==> rows == old(rows) && cache == old(cache) && id in dangling
    {
      hide Run;
      RunSnoc(start, before, DoCreateAssign(assignOk));
      steps := before + [DoCreateAssign(assignOk)];
      if !assignOk {
        steps := UndoCreate(id, rollbackOk, start, steps);
        return;
      }
      rows, cache := rows[id := slug], cache[id := slug];
      WriteAndRelease(start, steps, id, slug);
      steps := steps + [DoCacheWrite(id)] + [DoRelease];
      RunSnoc(start, steps, DoFinishCreate);
      steps := steps + [DoFinishCreate];
    }

    /** The registration's rollback after its assignment failed. */
    method UndoCreate(id: string, rollbackOk: bool, ghost start: State, ghost before: seq<Step>)
      returns (ghost steps: seq<Step>)
      requires id in rows && Run(start, before) == State(rows, workspaces, cache, Free, Unassigned(id), dangling)
      modifies this
      ensures Run(start, steps) == Snapshot()
      ensures cache == if rollbackOk then old(cache) - {id} else old(cache)
      ensures rows == if rollbackOk then old(rows) - {id} else old(rows)
      ensures workspaces == old(workspaces) && (!rollbackOk ==> id in dangling)
    {
      hide Run;
      RunSnoc(start, before, DoRollback(rollbackOk));
      steps := before + [DoRollback(rollbackOk)];
      if !rollbackOk {
        dangling := dangling + {id};
        return;
      }
      rows := rows - {id};
      RunSnoc(start, steps, DoDropCached);
      steps := steps + [DoDropCached];
      cache := cache - {id};
    }

    /** SetProjectWorkspace; an empty workspace clears the assignment. */
    method SetProjectWorkspace(id: string, ws: string, ok: bool) returns (code: nat, ghost steps: seq<Step>)
      modifies this
      ensures Snapshot() == Run(old(Snapshot()), steps)
      ensures old(Agreed(rows, cache)) ==> Agreed(rows, cache)
      ensures code == 200 <==> id in old(rows) && ok && (ws == "" || ws == "default" || ws in old(workspaces))
      ensures code == 404 <==> id !in old(rows) || !(ws == "" || ws == "default" || ws in old(workspaces))
      ensures workspaces == old(workspaces)
      ensures code == 200 ==> rows == old(rows)[id := ws] && cache == SetCached(old(cache), id, ws)
      ensures code != 200 ==> Snapshot() == old(Snapshot())
    {
      hide Run;
      steps := [];
      RunNil(Snapshot());
      if id !in rows {
        code := 404;
        return;
      }
      if ws != "" && ws != DEFAULT_SLUG && ws !in workspaces {
        code := 404;
        return;
      }
      if !ok {
        code := 500;
        return;
      }
      AssignAgreed(rows, cache, id, ws);
      rows, cache := rows[id := ws], SetCached(cache, id, ws);
      steps := [DoAssign(id, ws, true)];
      RunOne(old(Snapshot()), DoAssign(id, ws, true));
      WriteAndRelease(old(Snapshot()), steps, id, ws);
      steps := steps + [DoCacheWrite(id)] + [DoRelease];
      code := 200;
    }

    method DeleteProject(id: string, ok: bool) returns (code: nat, ghost steps: seq<Step>)
      modifies this
      ensures Snapshot() == Run(old(Snapshot()), steps)
      ensures old(Agreed(rows, cache)) ==> Agreed(rows, cache)
      ensures code == 200 <==> id in old(rows) && ok
      ensures rows == (if code == 200 then old(rows) - {id} else old(rows)) &&
              cache.Keys == old(cache).Keys - (if code == 200 then {id} else {})
    {
      hide Run;
      steps := [];
      RunNil(Snapshot());
      if id !in rows || !ok {
        code := 404;
        return;
      }
      ForgetAgreed(rows, cache, id);
      rows := rows - {id};
      cache := cache - {id};
      dangling := dangling - {id};
      steps := [DoDelete(id, true)];
      RunOne(old(Snapshot()), DoDelete(id, true));
      RunSnoc(old(Snapshot()), steps, DoDropCached);
      steps := steps + [DoDropCached];
      code := 200;
    }

    /** The cache writes of a holder of mu, in the order listed. */
    method WriteCache(ids: seq<string>, ws: string, ghost start: State, ghost before: seq<Step>,
                      ghost pending: map<string, string>)
      returns (ghost steps: seq<Step>)
      requires ws != "" && (forall id :: id in ids ==> id in pending && pending[id] == ws)
      requires Run(start, before) == State(rows, workspaces, cache, Writing(pending), Idle, dangling)
      modifies this`cache
      ensures Run(start, steps) == State(rows, workspaces, cache, Writing(pending - SetOf(ids)), Idle, dangling)
      ensures forall id :: id in ids ==> id in cache && cache[id] == ws
      ensures forall id :: id !in ids ==> Lookup(cache, id) == Lookup(old(cache), id)
    {
      hide Run, Next, SetOf;
      steps := before;
      var i := 0;
      assert SetOf(ids[..0]) == {} by { NoIds(ids); }
      assert pending - {} == pending;
      while i < |ids|
        invariant 0 <= i <= |ids|
        invariant Run(start, steps) ==
                  State(rows, workspaces, cache, Writing(pending - SetOf(ids[..i])), Idle, dangling)
        invariant forall id :: id in ids[..i] ==> id in cache && cache[id] == ws
        invariant forall id :: id !in ids[..i] ==> Lookup(cache, id) == Lookup(old(cache), id)
      {
        var id := ids[i];
        assert ids[..i + 1] == ids[..i] + [id];
        PendingShrinks(pending, ids, i);
        if id in ids[..i] {
          assert cache[id := ws] == cache;
        } else {
          NotYet(pending, ids, i);
          WriteOne(start, steps, id);
          steps := steps + [DoCacheWrite(id)];
        }
        cache := cache[id := ws];
        i := i + 1;
      }
      assert ids[..|ids|] == ids;
    }

    /** RemoveWorkspace; `listing` is the store's list of the projects assigned to it. */
    method RemoveWorkspace(slug: string, listing: seq<string>, ok: bool) returns (code: nat, ghost steps: seq<Step>)
      requires slug != "" && forall id :: id in listing <==> id in AssignedTo(rows, slug)
      modifies this
      ensures Snapshot() == Run(old(Snapshot()), steps)
      ensures old(Agreed(rows, cache)) ==> Agreed(rows, cache)
      ensures code == 200 <==> slug != DEFAULT_SLUG && slug in old(workspaces) && ok
      ensures code != 200 ==> Snapshot() == old(Snapshot())
      ensures code == 200 ==>
                && rows.Keys == old(rows).Keys && workspaces == old(workspaces) - {slug}
                && (forall id :: id in rows ==>
                      rows[id] == if old(rows)[id] == slug then DEFAULT_SLUG else old(rows)[id])
                && (forall id :: id in rows && old(rows)[id] == slug ==> Cached(Snapshot(), id) == DEFAULT_SLUG)
    {
      hide Run, Next;
      steps := [];
      RunNil(Snapshot());
      if slug == DEFAULT_SLUG {
        code := 400;
        return;
      }
      if slug !in workspaces || !ok {
        code := if slug !in workspaces then 404 else 409;
        return;
      }
      ghost var start := old(Snapshot());
      ghost var before := [DoRemoveList(slug)] + [DoRemove(true)];
      ghost var pending := map id | id in AssignedTo(rows, slug) :: DEFAULT_SLUG;
      RemoveCommits(start, slug);
      rows, workspaces := MoveAll(rows, AssignedTo(rows, slug), DEFAULT_SLUG), workspaces - {slug};
      steps := WriteCache(listing, DEFAULT_SLUG, start, before, pending);
      assert pending - SetOf(listing) == map[];
      ReleaseRuns(start, steps);
      steps := steps + [DoRelease];
      code := 200;
    }

    /**
     ApplyWorkspace's project half: `targets` are the ids the document's names resolved to,
     `current` the store's list of the projects assigned to the workspace.
     */
    method ApplyWorkspace(slug: string, targets: seq<string>, current: seq<string>, dryRun: bool, ok: bool)
      returns (code: nat, attached: seq<string>, already: seq<string>, detached: seq<string>, ghost steps: seq<Step>)
      requires slug != "" && forall id :: id in current <==> id in AssignedTo(rows, slug)
      modifies this
      ensures Snapshot() == Run(old(Snapshot()), steps)
      ensures old(Agreed(rows, cache)) ==> Agreed(rows, cache)
      ensures code == 200 <==> ok && forall id :: id in targets ==> id in old(rows)
      ensures code != 200 || dryRun ==> Snapshot() == old(Snapshot())
      ensures code == 200 ==>
                && (forall id :: id in attached <==> id in targets && old(rows)[id] != slug)
                && (forall id :: id in already <==> id in targets && old(rows)[id] == slug)
                && (forall id :: id in detached <==> id in old(rows) && old(rows)[id] == slug && id !in targets)
      ensures code == 200 && !dryRun ==>
                && rows.Keys == old(rows).Keys && workspaces == old(workspaces) + {slug}
                && forall id :: id in rows ==>
                     rows[id] == if id in targets then slug
                                 else if old(rows)[id] == slug then "default" else old(rows)[id]
    {
      hide Run;
      steps := [];
      RunNil(Snapshot());
      attached, already, detached := [], [], [];
      if !ok {
        code := 500;
        return;
      }
      var i := 0;
      while i < |targets|
        invariant 0 <= i <= |targets| && Snapshot() == old(Snapshot())
        invariant forall id :: id in targets[..i] ==> id in rows
        invariant forall id :: id in attached <==> id in targets[..i] && rows[id] != slug
        invariant forall id :: id in already <==> id in targets[..i] && rows[id] == slug
      {
        var id := targets[i];
        assert targets[..i + 1] == targets[..i] + [id];
        if id !in attached && id !in already {
          if id in current {
            already := already + [id];
          } else if id !in rows {
            code := 500;
            return;
          } else {
            attached := attached + [id];
          }
        }
        i := i + 1;
      }
      assert targets[..|targets|] == targets;
      i := 0;
      while i < |current|
        invariant 0 <= i <= |current| && Snapshot() == old(Snapshot())
        invariant forall id :: id in detached <==> id in current[..i] && id !in targets
      {
        assert current[..i + 1] == current[..i] + [current[i]];
        if current[i] !in attached && current[i] !in already {
          detached := detached + [current[i]];
        }
        i := i + 1;
      }
      assert current[..|current|] == current;
      code := 200;
      if dryRun {
        return;
      }
      steps := CommitApply(slug, targets, attached, detached);
    }

    method CommitApply(slug: string, targets: seq<string>, attached: seq<string>, detached: seq<string>)
      returns (ghost steps: seq<Step>)
      requires slug != "" && forall id :: id in targets ==> id in rows
      requires forall id :: id in attached <==> id in targets && rows[id] != slug
      requires forall id :: id in detached <==> id in rows && rows[id] == slug && id !in targets
      modifies this
      ensures Snapshot() == Run(old(Snapshot()), steps)
      ensures old(Agreed(rows, cache)) ==> Agreed(rows, cache)
      ensures workspaces == old(workspaces) + {slug}
      ensures rows == MoveAll(MoveAll(old(rows), SetOf(attached), slug), SetOf(detached), DEFAULT_SLUG)
    {
      hide Run, Next, Agreed;
      ghost var start := old(Snapshot());
      ghost var e := DoApply(slug, Some(SetOf(targets)), false, true);
      ghost var pending := Moves(SetOf(attached), slug, SetOf(detached));
      ApplyCommits(start, slug, targets, attached, detached);
      rows, workspaces := MoveAll(MoveAll(rows, SetOf(attached), slug), SetOf(detached), DEFAULT_SLUG),
          workspaces + {slug};
      steps := WriteCache(attached, slug, start, [e], pending);
      ghost var mid := cache;
      steps := WriteCache(detached, DEFAULT_SLUG, start, steps, pending - SetOf(attached));
      assert pending - SetOf(attached) - SetOf(detached) == map[];
      ReleaseRuns(start, steps);
      steps := steps + [DoRelease];
      if old(Agreed(rows, cache)) {
        AppliedAgreed(old(rows), old(cache), mid, cache, slug, attached, detached);
      }
    }
  }

  lemma RunNil(s: State)
    ensures Run(s, []) == s
  {
  }

  lemma NoIds(ids: seq<string>)
    ensures SetOf(ids[..0]) == {}
  {
  }

  lemma NotYet(pending: map<string, string>, ids: seq<string>, i: nat)
    requires i < |ids| && ids[i] !in ids[..i] && ids[i] in pending
    ensures ids[i] in pending - SetOf(ids[..i])
  {
  }

  lemma ReleaseRuns(start: State, steps: seq<Step>)
    requires Run(start, steps).mu == Writing(map[])
    ensures Run(start, steps + [DoRelease]) == Run(start, steps).(mu := Free)
  {
    hide Run;
    RunSnoc(start, steps, DoRelease);
  }

  lemma RemoveCommits(s: State, slug: string)
    requires s.mu.Free? && slug != DEFAULT_SLUG && slug != "" && slug in s.workspaces
    ensures Run(s, [DoRemoveList(slug)] + [DoRemove(true)])
         == s.(rows := MoveAll(s.rows, AssignedTo(s.rows, slug), DEFAULT_SLUG), workspaces := s.workspaces - {slug},
               mu := Writing(map id | id in AssignedTo(s.rows, slug) :: DEFAULT_SLUG))
  {
    hide Run;
    RunOne(s, DoRemoveList(slug));
    RunSnoc(s, [DoRemoveList(slug)], DoRemove(true));
  }

  /** The transaction of an apply whose loops found these attachments and detachments. */
  lemma ApplyCommits(s: State, slug: string, targets: seq<string>, attached: seq<string>, detached: seq<string>)
    requires s.mu.Free? && slug != "" && forall id :: id in targets ==> id in s.rows
    requires forall id :: id in attached <==> id in targets && s.rows[id] != slug
    requires forall id :: id in detached <==> id in s.rows && s.rows[id] == slug && id !in targets
    ensures Run(s, [DoApply(slug, Some(SetOf(targets)), false, true)])
         == s.(rows := MoveAll(MoveAll(s.rows, SetOf(attached), slug), SetOf(detached), DEFAULT_SLUG),
               workspaces := s.workspaces + {slug}, mu := Writing(Moves(SetOf(attached), slug, SetOf(detached))))
  {
    RunOne(s, DoApply(slug, Some(SetOf(targets)), false, true));
    assert Attached(s, slug, SetOf(targets)) == SetOf(attached);
    assert Detached(s, slug, SetOf(targets)) == SetOf(detached);
  }
}
