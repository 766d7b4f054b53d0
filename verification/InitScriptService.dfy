/** The init.sh and workspace-row calls as they run, under the service mutex. */
module InitScriptService {
  import opened Wrappers
  import opened InitScripts
  import opened InitScriptEffects

  datatype IfMatch = Malformed | Revised(stamp: nat)

  class WorkspaceService {
    var db: State

    constructor ()
      ensures db == Init()
    {
      db := Init();
    }

    /** SetWorkspaceInitScript up to the mutex; an accepted call is the last one pending. */
    method Precheck(c: SetCall) returns (code: nat)
      modifies this
      ensures code == PrecheckCode(old(db), c)
      ensures db == Next(old(db), DoBeginSet(c))
      ensures code != 200 ==> db == old(db)
    {
      if c.slug !in db.rows {
        return 404;
      }
      if |c.content| > MAX_BYTES {
        return 400;
      }
      for i := 0 to |c.content|
        invariant db == old(db) && 0 !in c.content[..i]
      {
        if c.content[i] == 0 {
          return 400;
        }
      }
      assert c.content[..|c.content|] == c.content;
      db := db.(pending := db.pending + [c]);
      return 200;
    }

    /** SetWorkspaceInitScript from the mutex on, for the k-th pending call. */
    method SetLocked(k: nat, writeOk: bool) returns (code: nat, action: ScriptAction)
      requires k < |db.pending|
      modifies this
      ensures db == Next(old(db), DoFinishSet(k, writeOk))
      ensures var refusal := SetCode(old(db), old(db).pending[k]);
              code == if refusal == 200 && !writeOk then 500 else refusal
      ensures code != 200 ==> db.scripts == old(db).scripts && db.rows == old(db).rows && db.log == old(db).log
      ensures code == 200 <==> CarriedOut(old(db), old(db).pending[k]) && writeOk
      ensures code == 404 <==> old(db).pending[k].slug !in old(db).rows
      ensures code == 428 <==>
              var c := old(db).pending[k]; c.slug in old(db).rows && !c.force && c.ifMatch.None?
      ensures code == 412 <==>
              var c := old(db).pending[k];
              && c.slug in old(db).rows && !c.force
              && c.ifMatch.Some? && c.ifMatch.value != CurrentRevision(old(db), c.slug)
      ensures code in {200, 404, 412, 428, 500}
      ensures code == 200 ==>
                action == PredictScript(old(db).scripts, old(db).pending[k].slug, old(db).pending[k].content)
    {
      var c := db.pending[k];
      action := Unchanged;
      db := db.(pending := db.pending[..k] + db.pending[k + 1..]);
      if c.slug !in db.rows {
        code := 404;
        return;
      }
      var current := Stored(db.scripts, c.slug);
      if !c.force {
        if c.ifMatch.None? {
          code := 428;
          return;
        }
        if c.ifMatch.value != RevisionOf(current) {
          code := 412;
          return;
        }
      }
      if !writeOk {
        code := 500;
        return;
      }
      action := WriteLocked(c, current);
      code := 200;
    }

    /** writeWorkspaceInitScriptLocked, and the record of what it replaced. */
    method WriteLocked(c: SetCall, current: Option<Bytes>) returns (action: ScriptAction)
      requires current == Stored(db.scripts, c.slug)
      modifies this
      ensures var (scripts, expected) := WriteScript(old(db).scripts, c.slug, c.content);
              && action == expected
              && db == old(db).(scripts := scripts,
                                log := old(db).log + [ScriptWrite(c, current, Stored(scripts, c.slug))])
    {
      if |c.content| == 0 {
        var removed := c.slug in db.scripts;
        action := if removed then Cleared else Unchanged;
        db := db.(scripts := db.scripts - {c.slug}, log := db.log + [ScriptWrite(c, current, None)]);
        return;
      }
      action := Written;
      if current.Some? && current.value == c.content {
        action := Unchanged;
      }
      db := db.(scripts := db.scripts[c.slug := c.content], log := db.log + [ScriptWrite(c, current, Some(c.content))]);
    }

    /** UpdateWorkspace; the If-Match header may hold any text, and a malformed one matches nothing. */
    method UpdateWorkspace(slug: string, meta: string, ifMatch: Option<IfMatch>, force: bool, stamp: nat)
      returns (code: nat)
      modifies this
      ensures !force && ifMatch.None? ==> code == 428
      ensures code != 200 ==> db == old(db)
      ensures code == 404 ==> slug !in db.rows
      ensures code == 412 ==> slug in db.rows && ifMatch.Some? && ifMatch.value != Revised(db.rows[slug].stamp)
      ensures force ==> db == Next(old(db), DoForceUpdate(slug, meta, stamp))
      ensures !force && ifMatch.Some? && ifMatch.value.Revised? ==>
                db == Next(old(db), DoUpdate(slug, ifMatch.value.stamp, meta, stamp))
      ensures !force && ifMatch.Some? && ifMatch.value.Malformed? ==> code in {404, 412}
      ensures code in {200, 404, 412, 428}
      ensures code == 200 <==>
              slug in old(db).rows && (force || ifMatch == Some(Revised(old(db).rows[slug].stamp)))
      ensures code == 200 ==> slug in db.rows && db.rows[slug] == Row(meta, stamp, old(db).versions)
    {
      if !force && ifMatch.None? {
        return 428;
      }
      if force {
        if slug !in db.rows {
          return 404;
        }
        db := PutRow(db, slug, meta, stamp);
        return 200;
      }
      if slug in db.rows && ifMatch.value == Revised(db.rows[slug].stamp) {
        var replaced, at := db.rows[slug].version, ifMatch.value.stamp;
        var update := RowUpdate(slug, at, replaced, Readers(db.held, slug, at));
        db := PutRow(db, slug, meta, stamp).(log := db.log + [update]);
        return 200;
      }
      if slug !in db.rows {
        return 404;
      }
      return 412;
    }

    /** ApplyWorkspace's row and script; a dry run reports the action and writes nothing. */
    method ApplyWorkspace(slug: string, meta: string, script: Option<Bytes>, stamp: nat, scriptOk: bool, dryRun: bool)
      returns (code: nat, action: Option<ScriptAction>)
      modifies this
      ensures db == if dryRun then old(db) else Next(old(db), DoApply(slug, meta, script, stamp, scriptOk))
      ensures code == 400 <==> script.Some? && !ValidContent(script.value)
      ensures code == 200 ==>
                (action == if script.None? then None else Some(PredictScript(old(db).scripts, slug, script.value)))
      ensures code == 500 ==> !dryRun && !scriptOk && db.scripts == old(db).scripts && slug in db.rows
      ensures code in {200, 400, 500}
    {
      action := None;
      if script.Some? && !ValidContent(script.value) {
        code := 400;
        return;
      }
      if dryRun {
        if script.Some? {
          action := Some(PredictScript(db.scripts, slug, script.value));
        }
        code := 200;
        return;
      }
      db := PutRow(db, slug, meta, stamp);
      if script.None? {
        code := 200;
        return;
      }
      if !scriptOk {
        code := 500;
        return;
      }
      var written := WriteScript(db.scripts, slug, script.value);
      db := db.(scripts := written.0);
      action := Some(written.1);
      code := 200;
    }

    /** RemoveWorkspace's row and init.sh. */
    method RemoveWorkspace(slug: string, unlinkOk: bool) returns (code: nat, scriptDeleted: bool)
      modifies this
      ensures db == Next(old(db), DoRemove(slug, unlinkOk))
      ensures code == 200 <==> slug != DEFAULT_SLUG && slug in old(db).rows
      ensures code != 200 ==> db == old(db)
      ensures scriptDeleted <==> code == 200 && unlinkOk && slug in old(db).scripts
    {
      scriptDeleted := false;
      if slug == DEFAULT_SLUG {
        code := 400;
        return;
      }
      if slug !in db.rows {
        code := 404;
        return;
      }
      db := db.(rows := db.rows - {slug});
      code := 200;
      if unlinkOk {
        scriptDeleted := slug in db.scripts;
        db := db.(scripts := db.scripts - {slug});
      } else if slug in db.scripts {
        db := db.(orphans := db.orphans + {slug});
      }
    }
  }
}
