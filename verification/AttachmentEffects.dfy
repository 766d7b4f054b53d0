/** What saving, reading and listing attachments do, told on names, sizes and bytes (internal/api/attachments.go). */
module AttachmentEffects {
  import opened Wrappers
  import opened Paths
  import opened AttachmentNames
  import opened AttachmentNameRules
  import opened AttachmentStore

  // ---------- one file ----------

  /** The i-th name tried for a file called stem + ext. */
  ghost function Variant(stem: string, ext: string, i: nat): string {
    if i == 0 then stem + ext else stem + "-" + Itoa(i) + ext
  }

  lemma FoundIsVariant(taken: set<string>, stem: string, ext: string, c: string)
    requires KnownExt(ext) && exists k :: FoundAt(taken, stem + ext, 0, k, c)
    ensures exists k :: 0 <= k < 999 && c == Variant(stem, ext, k)
                        && forall l :: 0 <= l < k ==> Variant(stem, ext, l) in taken
  {
    hide KnownExt, Candidate, Itoa;
    var k :| FoundAt(taken, stem + ext, 0, k, c);
    forall l: nat ensures Variant(stem, ext, l) == Candidate(stem + ext, l) {
      VariantsOf(stem, ext, l);
    }
    assert c == Variant(stem, ext, k);
  }

  /**
   A file that meets every rule is stored under the first of its variants that is not taken:
   under its own name when that is free.
   */
  lemma PlacedUnder(d: Dir, total: int, f: Upload, stem: string, ext: string)
    requires Storable(stem, ext) && SanitizeAttachmentName(f.filename) == Ok(stem + ext)
    requires f.size <= 10485760 && |f.data| <= 10485760 && total + f.size <= 31457280
    requires f.statOk && f.openOk && f.writeOk
    ensures stem + ext !in d ==> Place(d, total, f) == Ok(stem + ext)
    ensures Place(d, total, f).Ok? ==>
              exists k :: 0 <= k < 999 && Place(d, total, f).value == Variant(stem, ext, k)
                          && forall l :: 0 <= l < k ==> Variant(stem, ext, l) in d
    ensures Place(d, total, f).Err? ==> Place(d, total, f).error == NoUniqueName
  {
    hide SanitizeAttachmentName, KnownExt, AllPortable;
    FirstFreeIsCandidate(d.Keys, stem + ext, 0);
    if Place(d, total, f).Ok? {
      FoundIsVariant(d.Keys, stem, ext, Place(d, total, f).value);
    }
  }

  /** Every reason a file is refused, in the order they are looked at. */
  lemma PlaceRefusals(d: Dir, total: int, f: Upload)
    ensures f.size > 10485760 ==> Place(d, total, f) == Err(FileTooLarge)
    ensures f.size <= 10485760 && (forall name :: SanitizeAttachmentName(f.filename) != Ok(name)) ==>
              Place(d, total, f).Err? && Place(d, total, f).error.BadName?
    ensures forall name :: f.size <= 10485760 && SanitizeAttachmentName(f.filename) == Ok(name) ==>
              && (!f.statOk ==> Place(d, total, f) == Err(NoUniqueName))
              && (f.statOk && name !in d && total + f.size > 31457280 ==> Place(d, total, f) == Err(OverQuota))
              && (f.statOk && name !in d && total + f.size <= 31457280 ==>
                    (Place(d, total, f) == Err(WriteFailed) <==> !f.openOk || !f.writeOk || |f.data| > 10485760))
  {
    if SanitizeAttachmentName(f.filename).Ok? {
      SanitizedIsSafe(f.filename);
    } else {
      assert SanitizeAttachmentName(f.filename).Err?;
    }
    hide SanitizeAttachmentName, SafeName;
    assert forall name :: Candidate(name, 0) == name;
  }

  /** Files are saved in order, each beside those before it, and one refusal refuses them all. */
  lemma SavedInOrder(d: Dir, total: int, f: Upload, rest: seq<Upload>)
    ensures SaveAll(d, total, []) == Ok((d, []))
    ensures Place(d, total, f).Err? ==> SaveAll(d, total, [f] + rest) == Err(Place(d, total, f).error)
    ensures Place(d, total, f).Ok? ==>
              var name := Place(d, total, f).value;
              match SaveAll(d[name := Regular(f.data)], total + f.size, rest)
              case Err(e) => SaveAll(d, total, [f] + rest) == Err(e)
              case Ok((d', names)) => SaveAll(d, total, [f] + rest) == Ok((d', [name] + names))
  {
    hide Place;
    assert ([f] + rest)[0] == f && ([f] + rest)[1..] == rest;
  }

  // ---------- sizes ----------

  /** The total counts the bytes of regular files and nothing else. */
  lemma DirSizeCounts(d: Dir, k: string, data: seq<byte>)
    requires k !in d
    ensures DirSize(map[]) == 0
    ensures DirSize(d[k := Regular(data)]) == DirSize(d) + |data|
    ensures DirSize(d[k := Irregular]) == DirSize(d)
  {
    DirSizeAdd(d, k, Regular(data));
    DirSizeAdd(d, k, Irregular);
  }

  // ---------- reading ----------

  ghost predicate OneSegment(s: string) {
    s != "" && s != "." && s != ".." && '/' !in s
  }

  /** Every outcome of a lookup: which inputs are refused, and what is served otherwise. */
  lemma ReadOutcomes(dirs: map<string, Dir>, dataHome: string, taskID: string, name: string)
    ensures ReadAttachment(dirs, dataHome, taskID, name) == Err(NoDirectory) <==> dataHome == "" || !OneSegment(taskID)
    ensures dataHome != "" && OneSegment(taskID) ==>
              && (ReadAttachment(dirs, dataHome, taskID, name) == Err(InvalidLookup) <==> !OneSegment(name))
              && (OneSegment(name) ==>
                    var root := TasksDir(dataHome) + "/" + taskID + "/attachments";
                    var there := root in dirs && name in dirs[root];
                    ReadAttachment(dirs, dataHome, taskID, name) ==
                      if !there || dirs[root][name].Irregular? then Err(NotFound)
                      else if |dirs[root][name].data| > 10485760 then Err(OverCap)
                      else Ok(dirs[root][name].data))
  {
    CanonicalIsPlain(name);
    hide IsCanonicalPathComponent;
    if dataHome != "" {
      AttachmentsRootPlacement(dataHome, taskID);
    }
    if dataHome != "" && OneSegment(taskID) {
      AttachmentsRootNonEmpty(dataHome, taskID);
    }
  }

  lemma AttachmentsRootNonEmpty(dataHome: string, taskID: string)
    requires dataHome != "" && OneSegment(taskID)
    ensures AttachmentsRootForTask(dataHome, taskID) == TasksDir(dataHome) + "/" + taskID + "/attachments"
  {
    hide AttachmentsRootForTask, TasksDir;
    AttachmentsRootPlacement(dataHome, taskID);
    assert [SEP] + ATTACHMENTS == "/attachments" && [SEP] == "/";
  }

  // ---------- listing ----------

  /** a and b agree up to k, where a ends or has the smaller character. */
  ghost predicate FirstDiffer(a: string, b: string, k: nat) {
    k <= |a| && k < |b| && a[..k] == b[..k] && (k == |a| || a[k] < b[k])
  }

  /** Listings are in dictionary order. */
  lemma {:induction false} BeforeIff(a: string, b: string)
    ensures Before(a, b) <==> exists k: nat :: FirstDiffer(a, b, k)
  {
    if a == "" || b == "" || a[0] != b[0] {
      if Before(a, b) {
        assert FirstDiffer(a, b, 0);
      }
      forall k: nat | FirstDiffer(a, b, k) ensures Before(a, b) {
        if k > 0 {
          assert a[..k][0] == b[..k][0];
        }
      }
    } else {
      BeforeIff(a[1..], b[1..]);
      DifferRest(a, b);
    }
  }

  lemma DifferRest(a: string, b: string)
    requires a != "" && b != "" && a[0] == b[0]
    ensures (exists k: nat :: FirstDiffer(a, b, k)) <==> (exists k: nat :: FirstDiffer(a[1..], b[1..], k))
  {
    forall k: nat ensures FirstDiffer(a, b, k + 1) <==> FirstDiffer(a[1..], b[1..], k) {
      if k < |a| && k < |b| {
        assert a[..k + 1] == [a[0]] + a[1..][..k] && b[..k + 1] == [b[0]] + b[1..][..k];
        assert a[..k + 1] == b[..k + 1] <==> a[1..][..k] == b[1..][..k] by {
          assert a[..k + 1][1..] == a[1..][..k] && b[..k + 1][1..] == b[1..][..k];
        }
      }
    }
    if k: nat :| FirstDiffer(a, b, k) {
      assert k > 0;
      assert FirstDiffer(a, b, (k - 1) + 1) && FirstDiffer(a[1..], b[1..], k - 1);
    }
    if k: nat :| FirstDiffer(a[1..], b[1..], k) {
      assert FirstDiffer(a, b, k + 1);
    }
  }
}
