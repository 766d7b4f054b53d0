/** What each call on a workspace's script and row does, told on scripts, rows and calls. */
module InitScriptEffects {
  import opened Wrappers
  import opened InitScripts

  /** The revision a reader of the workspace's script is given. */
  ghost function CurrentRevision(s: State, slug: string): Revision {
    if slug in s.scripts then Hash(s.scripts[slug]) else Absent
  }

  /** The scripts once content is stored for slug; no bytes mean no script. */
  ghost function StoredAs(scripts: map<string, Bytes>, slug: string, content: Bytes): map<string, Bytes> {
    if |content| == 0 then scripts - {slug} else scripts[slug := content]
  }

  ghost predicate Acceptable(content: Bytes) {
    |content| <= 131072 && forall i :: 0 <= i < |content| ==> content[i] != 0
  }

  /** A call is admitted past its precheck exactly for an existing row and a text of at most 128 KiB. */
  lemma AdmittedIff(s: State, c: SetCall)
    ensures BeginSet(s, c) == if c.slug in s.rows && Acceptable(c.content) then s.(pending := s.pending + [c]) else s
    ensures PrecheckCode(s, c) == if c.slug !in s.rows then 404 else if !Acceptable(c.content) then 400 else 200
  {
  }

  /** An admitted call is carried out exactly if the row is still there and it is forced or names the current script. */
  ghost predicate CarriedOut(s: State, c: SetCall) {
    c.slug in s.rows && (c.force || c.ifMatch == Some(CurrentRevision(s, c.slug)))
  }

  lemma WriteEffect(s: State, k: nat)
    requires k < |s.pending|
    ensures var c, s' := s.pending[k], FinishSet(s, k, true);
            && s'.rows == s.rows && s'.pending == s.pending[..k] + s.pending[k + 1..]
            && s'.scripts == (if CarriedOut(s, c) then StoredAs(s.scripts, c.slug, c.content) else s.scripts)
            && |s'.log| == |s.log| + if CarriedOut(s, c) then 1 else 0
    ensures var s' := FinishSet(s, k, false);
            s'.rows == s.rows && s'.scripts == s.scripts && s'.log == s.log
  {
  }

  /** Why a call is not carried out: the row is gone, no revision named, or another one. */
  lemma RefusalCodes(s: State, c: SetCall)
    ensures CarriedOut(s, c) ==> SetCode(s, c) == 200
    ensures c.slug !in s.rows ==> SetCode(s, c) == 404
    ensures c.slug in s.rows && !c.force && c.ifMatch.None? ==> SetCode(s, c) == 428
    ensures c.slug in s.rows && !c.force && c.ifMatch.Some? && c.ifMatch.value != CurrentRevision(s, c.slug) ==>
              SetCode(s, c) == 412
  {
  }

  /**
   Progress: a client that reads a script and, whatever the other calls do meanwhile, finds
   the row there and the script as it read it, has its unforced write accepted and stored.
   */
  lemma ReadThenWriteIsStored(steps: seq<Step>, more: seq<Step>, slug: string, content: Bytes)
    requires slug in Run(Init(), steps).rows && Acceptable(content)
    requires var s := Run(Next(Run(Init(), steps), DoReadScript(slug)), more);
             slug in s.rows && CurrentRevision(s, slug) == CurrentRevision(Run(Init(), steps), slug)
    ensures var before := Run(Init(), steps);
            var known := Next(before, DoReadScript(slug)).scriptReads;
            var s := Run(Next(before, DoReadScript(slug)), more);
            var c := SetCall(slug, content, Some(RevisionOf(known[|known| - 1].content)), false);
            var begun := Next(s, DoBeginSet(c));
            && known == before.scriptReads + [ScriptRead(slug, Stored(before.scripts, slug))]
            && begun.pending == s.pending + [c]
            && Next(begun, DoFinishSet(|s.pending|, true)).scripts == StoredAs(s.scripts, slug, content)
  {
    hide Run;
    var before := Run(Init(), steps);
    var s := Run(Next(before, DoReadScript(slug)), more);
    var c := SetCall(slug, content, Some(CurrentRevision(before, slug)), false);
    AdmittedIff(s, c);
    WriteEffect(Next(s, DoBeginSet(c)), |s.pending|);
  }

  /** A forced write with acceptable content to an existing row is always accepted. */
  lemma ForcedWriteIsStored(s: State, slug: string, content: Bytes, ifMatch: Option<Revision>)
    requires slug in s.rows && Acceptable(content)
    ensures var begun := Next(s, DoBeginSet(SetCall(slug, content, ifMatch, true)));
            Next(begun, DoFinishSet(|s.pending|, true)).scripts == StoredAs(s.scripts, slug, content)
  {
    AdmittedIff(s, SetCall(slug, content, ifMatch, true));
    WriteEffect(Next(s, DoBeginSet(SetCall(slug, content, ifMatch, true))), |s.pending|);
  }

  // ---------- rows ----------

  /** The step writes slug's row with this text and stamp, as the next version, and no other row. */
  ghost predicate RowWritten(s: State, s': State, slug: string, meta: string, stamp: nat) {
    s'.rows == s.rows[slug := Row(meta, stamp, s.versions)] && s'.versions == s.versions + 1
  }

  /** Creating needs the slug free, updating needs the row, and without force its current revision. */
  lemma RowEffects(s: State, slug: string, ifMatch: nat, meta: string, stamp: nat)
    ensures slug !in s.rows ==>
              && RowWritten(s, Next(s, DoCreate(slug, meta, stamp)), slug, meta, stamp)
              && Next(s, DoForceUpdate(slug, meta, stamp)) == s && Next(s, DoUpdate(slug, ifMatch, meta, stamp)) == s
    ensures slug in s.rows ==>
              && Next(s, DoCreate(slug, meta, stamp)) == s
              && RowWritten(s, Next(s, DoForceUpdate(slug, meta, stamp)), slug, meta, stamp)
              && (s.rows[slug].stamp == ifMatch ==>
                    RowWritten(s, Next(s, DoUpdate(slug, ifMatch, meta, stamp)), slug, meta, stamp))
              && (s.rows[slug].stamp != ifMatch ==> Next(s, DoUpdate(slug, ifMatch, meta, stamp)) == s)
    ensures Next(s, DoCreate(slug, meta, stamp)).scripts == s.scripts
    ensures Next(s, DoUpdate(slug, ifMatch, meta, stamp)).scripts == s.scripts
    ensures Next(s, DoForceUpdate(slug, meta, stamp)).scripts == s.scripts
  {
  }

  /** An applied document writes the row and then, if it carries one, the script; a bad script refuses it whole. */
  lemma ApplyEffect(s: State, slug: string, meta: string, script: Option<Bytes>, stamp: nat, scriptOk: bool)
    ensures script.Some? && !Acceptable(script.value) ==> Next(s, DoApply(slug, meta, script, stamp, scriptOk)) == s
    ensures script.None? || Acceptable(script.value) ==>
              var s' := Next(s, DoApply(slug, meta, script, stamp, scriptOk));
              && RowWritten(s, s', slug, meta, stamp)
              && s'.scripts == if script.Some? && scriptOk then StoredAs(s.scripts, slug, script.value) else s.scripts
  {
  }

  /** A removal takes the row and the script, never the default workspace's; an unlink that fails leaves the script. */
  lemma RemoveEffect(s: State, slug: string, unlinkOk: bool)
    ensures var s' := Next(s, DoRemove(slug, unlinkOk));
            if slug == "default" || slug !in s.rows then s' == s
            else s'.rows == s.rows - {slug} && s'.scripts == if unlinkOk then s.scripts - {slug} else s.scripts
  {
  }

  /** Reads hand out the stored text with its revision, and change neither rows nor scripts. */
  lemma ReadEffect(s: State, slug: string)
    requires slug in s.rows
    ensures var s' := Next(s, DoRead(slug));
            s'.held == s.held + [Read(slug, s.rows[slug].stamp, s.rows[slug].version)] && s'.rows == s.rows
    ensures var s' := Next(s, DoReadScript(slug));
            s'.scripts == s.scripts && s'.scriptReads == s.scriptReads + [ScriptRead(slug, Stored(s.scripts, slug))]
    ensures Stored(s.scripts, slug) == if slug in s.scripts then Some(s.scripts[slug]) else None
    ensures RevisionOf(Stored(s.scripts, slug)) == CurrentRevision(s, slug)
  {
  }

  /** The action reported says what happened: cleared, written, or the same as before. */
  lemma ActionEffect(scripts: map<string, Bytes>, slug: string, content: Bytes)
    ensures WriteScript(scripts, slug, content).0 == StoredAs(scripts, slug, content)
    ensures WriteScript(scripts, slug, content).1 ==
            if StoredAs(scripts, slug, content) == scripts then Unchanged
            else if |content| == 0 then Cleared else Written
    ensures ExportScript(scripts, slug) == if slug in scripts then scripts[slug] else []
  {
  }
}
